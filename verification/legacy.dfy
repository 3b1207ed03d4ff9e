/** The earlier single-stack machine of stack-vm.go: only HALT, NOP and PRINT,
    where PRINT takes its character as an immediate operand. Its stack and its
    Fetch, Jump, LoadParams and LoadProgram are the same code as in
    common/stack.go and common/vm.go and are shared with that model. */
module Legacy {
  import opened Words
  import opened Errors
  import opened Stack
  import opened ProgramMemory

  const HALT: Word := 0
  const NOP: Word := 1
  const PRINT: Word := 2

  const DEFAULT_STACK_SIZE: nat := 1024

  datatype VM = VM(stack: Stack, mem: Memory, out: seq<Word>)

  datatype Outcome = Outcome(vm: VM, err: Option<Error>)

  datatype Status = Running(vm: VM) | Halted(vm: VM) | Failed(vm: VM, err: Error)

  /** The arity table of this variant: PRINT takes one operand, HALT and NOP
      none, and every other word is an unknown operand. */
  function GetParamNumber(op: Word): (r: Result<nat>)
    ensures r.Ok? <==> op == HALT || op == NOP || op == PRINT
    ensures r.Err? ==> r.error == UnknownOperand
    ensures r == Ok(0) <==> op == HALT || op == NOP
    ensures r == Ok(1) <==> op == PRINT
  {
    if op == HALT then Ok(0)
    else if op == NOP then Ok(0)
    else if op == PRINT then Ok(1)
    else Err(UnknownOperand)
  }

  /** A machine with an empty stack of capacity `stackSize`, no program, pc 0 and no output. */
  function NewVM(stackSize: nat): (vm: VM)
    ensures vm.stack.Valid() && vm.stack.size == stackSize && vm.stack.top == 0
    ensures forall i :: 0 <= i < stackSize ==> vm.stack.items[i] == 0
    ensures vm.mem == Memory([], 0) && vm.out == []
  {
    VM(NewStack(stackSize), Memory([], 0), [])
  }

  function DefaultVM(): (vm: VM)
    ensures vm.stack.Valid() && vm.stack.size == DEFAULT_STACK_SIZE && vm.stack.top == 0
    ensures vm.mem.pc == 0
  {
    NewVM(DEFAULT_STACK_SIZE)
  }

  /** NOP does nothing; PRINT writes its operand as one character and leaves
      the stack alone; HALT and every other word are unknown operands. No
      instruction of this variant touches the stack or the counter. */
  function Execute(vm: VM, op: Word, params: seq<Word>): (r: Outcome)
    requires op == PRINT ==> |params| >= 1
    ensures r.vm.stack == vm.stack && r.vm.mem == vm.mem
    ensures op == NOP ==> r == Outcome(vm, None)
    ensures op == PRINT ==> r.err == None && r.vm.out == vm.out + [params[0]]
    ensures op != NOP && op != PRINT ==> r == Outcome(vm, Some(UnknownOperand))
  {
    if op == NOP then Outcome(vm, None)
    else if op == PRINT then Outcome(vm.(out := vm.out + [params[0]]), None)
    else Outcome(vm, Some(UnknownOperand))
  }

  /** The words a run has printed since `vm`: each of them is a word of the program. */
  predicate PrintsFromProgram(vm: VM, vm': VM) {
    && vm.out <= vm'.out
    && forall i :: |vm.out| <= i < |vm'.out| ==> vm'.out[i] in vm.mem.program
  }

  /** The errors a run of this variant can stop with. */
  predicate RunError(e: Error) {
    e == ProgramOutOfBounds || e == UnknownOperand
  }

  /** One iteration of this variant's `Run` loop: outside the program it fails
      out of bounds; on HALT it stops past it; an unknown word fails past it;
      NOP moves on by one; PRINT without its operand fails with pc at the
      program's end, and otherwise prints the operand and moves on by two. */
  function Step(vm: VM): (r: Status)
    ensures r.vm.stack == vm.stack && r.vm.mem.program == vm.mem.program
    ensures PrintsFromProgram(vm, r.vm)
    ensures r.Failed? ==> RunError(r.err)
    ensures !vm.mem.InBounds(vm.mem.pc) ==> r == Failed(vm, ProgramOutOfBounds)
    ensures r.Halted? <==> vm.mem.InBounds(vm.mem.pc) && vm.mem.program[vm.mem.pc] == HALT
    ensures r.Halted? ==> r.vm == vm.(mem := vm.mem.(pc := vm.mem.pc + 1))
    ensures vm.mem.InBounds(vm.mem.pc) && GetParamNumber(vm.mem.program[vm.mem.pc]).Err? ==>
              r == Failed(vm.(mem := vm.mem.(pc := vm.mem.pc + 1)), UnknownOperand)
    ensures vm.mem.InBounds(vm.mem.pc) && vm.mem.program[vm.mem.pc] == NOP ==>
              r == Running(vm.(mem := vm.mem.(pc := vm.mem.pc + 1)))
    ensures vm.mem.InBounds(vm.mem.pc) && vm.mem.pc + 1 == |vm.mem.program| && vm.mem.program[vm.mem.pc] == PRINT ==>
              r == Failed(vm.(mem := vm.mem.(pc := |vm.mem.program|)), ProgramOutOfBounds)
    ensures 0 <= vm.mem.pc < |vm.mem.program| - 1 && vm.mem.program[vm.mem.pc] == PRINT ==>
              r == Running(vm.(mem := vm.mem.(pc := vm.mem.pc + 2),
                               out := vm.out + [vm.mem.program[vm.mem.pc + 1]]))
    ensures r.Running? ==> r.vm.mem.pc == vm.mem.pc + 1 || r.vm.mem.pc == vm.mem.pc + 2
  {
    match Fetch(vm.mem)
    case Err(e) => Failed(vm, e)
    case Ok(f) =>
      var vm1 := vm.(mem := f.mem);
      if f.word == HALT then
        Halted(vm1)
      else
        match GetParamNumber(f.word)
        case Err(e) => Failed(vm1, e)
        case Ok(n) =>
          var loaded := LoadParams(vm1.mem, n);
          if loaded.err.Some? then
            Failed(vm1.(mem := loaded.mem), loaded.err.value)
          else
            assert n == 1 ==> loaded.params[0] == vm.mem.program[vm.mem.pc + 1];
            Continue(Execute(vm1.(mem := loaded.mem), f.word, loaded.params))
  }

  /** The loop goes on after an instruction that succeeded and stops with the
      error of one that failed. */
  function Continue(o: Outcome): (r: Status)
    ensures r.vm == o.vm && (r.Failed? <==> o.err.Some?) && !r.Halted?
  {
    if o.err.Some? then Failed(o.vm, o.err.value) else Running(o.vm)
  }

  /** `Run` with at most `fuel` iterations. A run of this variant never
      touches its stack, and prints only words taken from its program. */
  function RunN(vm: VM, fuel: nat): (r: Status)
    ensures r.vm.stack == vm.stack && r.vm.mem.program == vm.mem.program
    ensures PrintsFromProgram(vm, r.vm)
    ensures r.Failed? ==> RunError(r.err)
    ensures r.Halted? ==> 1 <= r.vm.mem.pc <= |r.vm.mem.program| && r.vm.mem.program[r.vm.mem.pc - 1] == HALT
    decreases fuel
  {
    if fuel == 0 then
      Running(vm)
    else
      match Step(vm)
      case Running(vm') => RunN(vm', fuel - 1)
      case Halted(vm') => Halted(vm')
      case Failed(vm', e) => Failed(vm', e)
  }

  function Boot(program: seq<Word>, stackSize: nat): VM
  {
    NewVM(stackSize).(mem := Memory(program, 0))
  }

  /** Jumps on `[NOP, HALT]`: 100 and -100 are out of bounds, 1 moves the counter to 1. */
  lemma JumpScenario()
    ensures Jump(Memory([NOP, HALT], 0), 100) == Err(JumpOutOfBounds)
    ensures Jump(Memory([NOP, HALT], 0), -100) == Err(JumpOutOfBounds)
    ensures Jump(Memory([NOP, HALT], 0), 1) == Ok(Memory([NOP, HALT], 1))
  {
  }

  /** Fetch on `[HALT]` reads HALT and moves to 1; the next fetch is out of bounds. */
  lemma FetchScenario()
    ensures Fetch(Memory([HALT], 0)) == Ok(Fetched(HALT, Memory([HALT], 1)))
    ensures Fetch(Memory([HALT], 1)) == Err(ProgramOutOfBounds)
  {
  }

  /** Loading no operands never fails, even without a program; loading one
      reads the next word; loading one past the end is out of bounds. */
  lemma LoadParamsScenario()
    ensures LoadParams(Memory([], 0), 0) == Loaded(Memory([], 0), [], None)
    ensures LoadParams(Memory([0], 0), 1) == Loaded(Memory([0], 1), [0], None)
    ensures LoadParams(Memory([], 0), 1).err == Some(ProgramOutOfBounds)
  {
  }

  /** `[NOP, HALT]` halts after two iterations with pc 2 and an empty stack. */
  lemma RunScenario()
    ensures RunN(Boot([NOP, HALT], 0), 2).Halted?
    ensures RunN(Boot([NOP, HALT], 0), 2).vm.mem.pc == 2
    ensures RunN(Boot([NOP, HALT], 0), 2).vm.stack.top == 0
  {
    var vm := Boot([NOP, HALT], 0);
    assert Step(vm) == Running(vm.(mem := Memory([NOP, HALT], 1)));
  }

  /** `[PRINT, 'a', HALT]` writes 'a' and halts with the stack untouched. */
  lemma PrintScenario()
    ensures RunN(Boot([PRINT, 'a' as int as Word, HALT], 1), 2).Halted?
    ensures RunN(Boot([PRINT, 'a' as int as Word, HALT], 1), 2).vm.out == ['a' as int as Word]
    ensures RunN(Boot([PRINT, 'a' as int as Word, HALT], 1), 2).vm.stack.top == 0
  {
    var vm := Boot([PRINT, 'a' as int as Word, HALT], 1);
    var s1 := Step(vm);
    assert s1 == Running(vm.(mem := Memory(vm.mem.program, 2), out := ['a' as int as Word]));
  }

  /** The stack tests of this variant: on capacity 1, pushing 1 fills slot 0,
      a second push overflows, a pop returns 1 and a second pop underflows. */
  lemma StackScenario()
    ensures Push(NewStack(1), 1) == Ok(Stack(1, 1, [1]))
    ensures Push(Stack(1, 1, [1]), 0) == Err(Overflow)
    ensures Pop(Stack(1, 1, [1])) == Ok(Popped(1, Stack(1, 0, [1])))
    ensures Pop(Stack(1, 0, [1])) == Err(Underflow)
  {
    assert NewStack(1).items == [0];
    assert NewStack(1).items[0 := 1] == [1];
  }
}
