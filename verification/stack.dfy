/** The bounded last-in-first-out stack of words (`Stack` in common/stack.go;
    the legacy variant in stack-vm.go carries an identical copy). */
module Stack {
  import opened Words
  import opened Errors

  /** `size` is the fixed capacity, `items` the preallocated slots and `top`
      the number of slots in use. */
  datatype Stack = Stack(size: nat, top: int, items: seq<Word>) {

    /** The invariant every push and pop keeps: 0 <= top <= size, one slot per unit of capacity. */
    predicate Valid() {
      0 <= top <= size && |items| == size
    }

    /** The logical content, bottom first; slots at and above `top` are idle. */
    function Contents(): (c: seq<Word>)
      requires Valid()
      ensures |c| == top
    {
      items[..top]
    }
  }

  /** The result of a successful pop: the removed element and the stack after it. */
  datatype Popped = Popped(elem: Word, rest: Stack)

  /** A new stack of capacity `n`: empty, with `n` zero-initialised slots. */
  function NewStack(n: nat): (s: Stack)
    ensures s.Valid() && s.size == n && s.top == 0
    ensures s.Contents() == []
    ensures forall i :: 0 <= i < n ==> s.items[i] == 0
  {
    Stack(n, 0, seq(n, _ => 0))
  }

  /** Push: overflow exactly when full; otherwise the element goes to slot `top`. */
  function Push(s: Stack, elem: Word): (r: Result<Stack>)
    requires s.Valid()
    ensures r.Err? <==> s.top == s.size
    ensures r.Err? ==> r.error == Overflow
    ensures r.Ok? ==> r.value.Valid() && r.value.size == s.size
    ensures r.Ok? ==> r.value.top == s.top + 1 && r.value.items[s.top] == elem
    ensures r.Ok? ==> forall i :: 0 <= i < s.size && i != s.top ==> r.value.items[i] == s.items[i]
    ensures r.Ok? ==> r.value.Contents() == s.Contents() + [elem]
  {
    if s.top == s.size then
      Err(Overflow)
    else
      Ok(s.(items := s.items[s.top := elem], top := s.top + 1))
  }

  /** Pop: underflow exactly when empty; otherwise the top element is returned
      and `top` drops by one, with the slots themselves left as they were. */
  function Pop(s: Stack): (r: Result<Popped>)
    requires s.Valid()
    ensures r.Err? <==> s.top == 0
    ensures r.Err? ==> r.error == Underflow
    ensures r.Ok? ==> r.value.rest.Valid() && r.value.rest.size == s.size
    ensures r.Ok? ==> r.value.rest.top == s.top - 1 && r.value.rest.items == s.items
    ensures r.Ok? ==> r.value.elem == s.items[s.top - 1]
    ensures r.Ok? ==> s.Contents() == r.value.rest.Contents() + [r.value.elem]
  {
    if s.top == 0 then
      Err(Underflow)
    else
      Ok(Popped(s.items[s.top - 1], s.(top := s.top - 1)))
  }

  /** LIFO round trip: popping right after a successful push returns the pushed
      element and restores the original top and content. */
  lemma PushPop(s: Stack, elem: Word)
    requires s.Valid() && s.top < s.size
    ensures Push(s, elem).Ok?
    ensures Pop(Push(s, elem).value).Ok?
    ensures Pop(Push(s, elem).value).value.elem == elem
    ensures Pop(Push(s, elem).value).value.rest.top == s.top
    ensures Pop(Push(s, elem).value).value.rest.Contents() == s.Contents()
  {
  }

  /** Pushes the elements of `elems` in order, stopping at the first failure. */
  function PushAll(s: Stack, elems: seq<Word>): (r: Result<Stack>)
    requires s.Valid()
    ensures r.Err? <==> s.top + |elems| > s.size
    ensures r.Err? ==> r.error == Overflow
    ensures r.Ok? ==> r.value.Valid() && r.value.size == s.size
    ensures r.Ok? ==> r.value.Contents() == s.Contents() + elems
    decreases |elems|
  {
    if |elems| == 0 then
      Ok(s)
    else
      match Push(s, elems[0])
      case Err(e) => Err(e)
      case Ok(s') =>
        assert s.Contents() + elems == s'.Contents() + elems[1..];
        PushAll(s', elems[1..])
  }

  /** Pops `n` elements, collecting them in the order they come off the stack. */
  function PopAll(s: Stack, n: nat): (r: Result<(seq<Word>, Stack)>)
    requires s.Valid()
    ensures r.Err? <==> n > s.top
    ensures r.Err? ==> r.error == Underflow
    ensures r.Ok? ==> r.value.1.Valid() && r.value.1.size == s.size
    ensures r.Ok? ==> r.value.1.Contents() + Reverse(r.value.0) == s.Contents()
    ensures r.Ok? ==> |r.value.0| == n
    decreases n
  {
    if n == 0 then
      Ok(([], s))
    else
      match Pop(s)
      case Err(e) => Err(e)
      case Ok(p) =>
        match PopAll(p.rest, n - 1)
        case Err(e) => Err(e)
        case Ok(res) =>
          ReverseCons(p.elem, res.0);
          Ok(([p.elem] + res.0, res.1))
  }

  function Reverse(xs: seq<Word>): (r: seq<Word>)
    ensures |r| == |xs|
    ensures forall i :: 0 <= i < |xs| ==> r[i] == xs[|xs| - 1 - i]
  {
    if |xs| == 0 then [] else Reverse(xs[1..]) + [xs[0]]
  }

  lemma ReverseCons(x: Word, xs: seq<Word>)
    ensures Reverse([x] + xs) == Reverse(xs) + [x]
  {
    assert ([x] + xs)[1..] == xs;
  }

  /** For every capacity C: C pushes onto a new stack succeed and the next one
      overflows; then C pops return the elements in reverse order and the next
      one underflows. */
  lemma {:induction false} FillThenDrain(elems: seq<Word>, extra: Word)
    ensures PushAll(NewStack(|elems|), elems).Ok?
    ensures Push(PushAll(NewStack(|elems|), elems).value, extra) == Err(Overflow)
    ensures PopAll(PushAll(NewStack(|elems|), elems).value, |elems|).Ok?
    ensures PopAll(PushAll(NewStack(|elems|), elems).value, |elems|).value.0 == Reverse(elems)
    ensures Pop(PopAll(PushAll(NewStack(|elems|), elems).value, |elems|).value.1) == Err(Underflow)
  {
    var full := PushAll(NewStack(|elems|), elems).value;
    assert full.Contents() == elems;
    var drained := PopAll(full, |elems|).value;
    assert drained.1.top == 0;
    assert drained.1.Contents() + Reverse(drained.0) == elems;
    ReverseReverse(drained.0);
    assert drained.0 == Reverse(Reverse(drained.0));
  }

  lemma ReverseReverse(xs: seq<Word>)
    ensures Reverse(Reverse(xs)) == xs
  {
  }
}
