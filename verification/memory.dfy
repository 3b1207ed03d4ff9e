/** Program memory and the program counter: the only way the VM reads its
    program. Fetch, Jump, LoadParams and LoadProgram are written identically
    in common/vm.go and in the legacy stack-vm.go, so both machines share them. */
module ProgramMemory {
  import opened Words
  import opened Errors

  /** The `program` and `pc` fields of the source's VM. `pc` is a Go `int`. */
  datatype Memory = Memory(program: seq<Word>, pc: int) {
    predicate InBounds(addr: int) {
      0 <= addr < |program|
    }
  }

  /** The result of a successful fetch: the word read and the memory after it. */
  datatype Fetched = Fetched(word: Word, mem: Memory)

  /** The outcome of loading operands: Go's `LoadParams` returns its (partly
      filled) parameter slice together with an error, and the program counter
      keeps whatever advance the successful fetches made. */
  datatype Loaded = Loaded(mem: Memory, params: seq<Word>, err: Option<Error>)

  /** Bounds-checked read of program memory, advancing the counter by one. */
  function Fetch(m: Memory): (r: Result<Fetched>)
    ensures r.Err? <==> !m.InBounds(m.pc)
    ensures r.Err? ==> r.error == ProgramOutOfBounds
    ensures r.Ok? ==> r.value.word == m.program[m.pc]
    ensures r.Ok? ==> r.value.mem.program == m.program && r.value.mem.pc == m.pc + 1
  {
    if m.pc < 0 || m.pc >= |m.program| then
      Err(ProgramOutOfBounds)
    else
      Ok(Fetched(m.program[m.pc], m.(pc := m.pc + 1)))
  }

  /** Bounds-checked update of the program counter. */
  function Jump(m: Memory, addr: int): (r: Result<Memory>)
    ensures r.Ok? <==> 0 <= addr < |m.program|
    ensures r.Err? ==> r.error == JumpOutOfBounds
    ensures r.Ok? ==> r.value.pc == addr && r.value.program == m.program
  {
    if addr < 0 || addr >= |m.program| then
      Err(JumpOutOfBounds)
    else
      Ok(m.(pc := addr))
  }

  /** A jump succeeds exactly at the addresses a fetch can read, and the fetch
      that follows a successful jump reads the word at its target. */
  lemma JumpThenFetch(m: Memory, addr: int)
    ensures Jump(m, addr).Ok? <==> Fetch(m.(pc := addr)).Ok?
    ensures Jump(m, addr).Ok? ==> Fetch(Jump(m, addr).value) == Ok(Fetched(m.program[addr], m.(pc := addr + 1)))
  {
  }

  function Zeros(n: nat): (z: seq<Word>)
    ensures |z| == n && forall i :: 0 <= i < n ==> z[i] == 0
  {
    seq(n, _ => 0)
  }

  /** Where `n` successive fetches starting at `m.pc` leave the counter: they
      stop at the first address outside the program. */
  function StopPc(m: Memory, n: nat): int
  {
    if m.pc < 0 then m.pc
    else if m.pc + n <= |m.program| then m.pc + n
    else if m.pc <= |m.program| then |m.program|
    else m.pc
  }

  /** `n` successive fetches. On success the counter has advanced by `n` and
      the operands are the next `n` program words; on failure it stops at the
      first failing fetch, the operands read so far are kept and the remaining
      ones are zero. */
  function LoadParams(m: Memory, n: nat): (r: Loaded)
    ensures |r.params| == n && r.mem.program == m.program
    ensures r.err.None? <==> n == 0 || (0 <= m.pc && m.pc + n <= |m.program|)
    ensures r.err.Some? ==> r.err.value == ProgramOutOfBounds
    ensures r.mem.pc == StopPc(m, n)
    ensures n > 0 && r.err.None? ==> r.params == m.program[m.pc..m.pc + n]
    ensures r.err.Some? && 0 <= m.pc <= |m.program| ==>
              r.params == m.program[m.pc..] + Zeros(n - (|m.program| - m.pc))
    ensures r.err.Some? && !(0 <= m.pc <= |m.program|) ==> r.params == Zeros(n)
    decreases n
  {
    if n == 0 then
      Loaded(m, [], None)
    else
      match Fetch(m)
      case Err(e) => Loaded(m, Zeros(n), Some(e))
      case Ok(f) =>
        var rest := LoadParams(f.mem, n - 1);
        Loaded(rest.mem, [f.word] + rest.params, rest.err)
  }

  /** Replaces the program by an element-wise copy of `words`; an empty
      program is refused and leaves the memory as it was. The counter is not reset. */
  method LoadProgram(m: Memory, words: seq<Word>) returns (r: Result<Memory>)
    ensures r.Err? <==> |words| == 0
    ensures r.Err? ==> r.error == EmptyProgram
    ensures r.Ok? ==> |r.value.program| == |words| && r.value.pc == m.pc
    ensures r.Ok? ==> forall i :: 0 <= i < |words| ==> r.value.program[i] == words[i]
  {
    if |words| == 0 {
      return Err(EmptyProgram);
    }
    var copy: seq<Word> := [];
    var i := 0;
    while i < |words|
      invariant 0 <= i <= |words|
      invariant |copy| == i
      invariant forall k :: 0 <= k < i ==> copy[k] == words[k]
    {
      copy := copy + [words[i]];
      i := i + 1;
    }
    return Ok(m.(program := copy));
  }
}
