/** The fetch/decode/execute engine of common/vm.go: an operand stack, a
    return-address stack, program memory with its counter, and the output the
    PRINT instruction produces (an append-only sequence of words, one per
    character written). */
module Machine {
  import opened Words
  import opened Errors
  import opened Stack
  import opened ProgramMemory

  const HALT: Word := 0
  const NOP: Word := 1
  const PRINT: Word := 2
  const PUSH: Word := 3
  const POP: Word := 4
  const ADD: Word := 5
  const JMP: Word := 6
  const JZ: Word := 7
  const JNZ: Word := 8
  const CALL: Word := 9
  const RET: Word := 10

  const NO_PARAMS: nat := 0
  const ONE_PARAM: nat := 1

  const DEFAULT_STACK_SIZE: nat := 1024

  datatype VM = VM(stack: Stack, returnStack: Stack, mem: Memory, out: seq<Word>) {
    predicate Valid() {
      stack.Valid() && returnStack.Valid()
    }
  }

  /** What a non-transactional operation leaves behind: the machine as it
      stands after the operation, and the error it reported, if any. */
  datatype Outcome = Outcome(vm: VM, err: Option<Error>)

  /** The opcode arity table: one trailing operand for PUSH, JZ, JNZ and CALL,
      none for the other seven opcodes, unknown operand for every other word. */
  function GetParamsNumber(op: Word): (r: Result<nat>)
    ensures r.Ok? <==> HALT <= op <= RET
    ensures r.Err? ==> r.error == UnknownOperand
    ensures r == Ok(ONE_PARAM) <==> op == PUSH || op == JZ || op == JNZ || op == CALL
    ensures r == Ok(NO_PARAMS) <==>
              op == HALT || op == NOP || op == PRINT || op == POP || op == ADD || op == JMP || op == RET
  {
    if op == HALT then Ok(NO_PARAMS)
    else if op == NOP then Ok(NO_PARAMS)
    else if op == PRINT then Ok(NO_PARAMS)
    else if op == PUSH then Ok(ONE_PARAM)
    else if op == POP then Ok(NO_PARAMS)
    else if op == ADD then Ok(NO_PARAMS)
    else if op == JMP then Ok(NO_PARAMS)
    else if op == JZ then Ok(ONE_PARAM)
    else if op == JNZ then Ok(ONE_PARAM)
    else if op == CALL then Ok(ONE_PARAM)
    else if op == RET then Ok(NO_PARAMS)
    else Err(UnknownOperand)
  }

  /** A machine with empty stacks of the given capacities, no program, pc 0 and no output. */
  function NewVM(stackSize: nat, returnStackSize: nat): (vm: VM)
    ensures vm.Valid() && vm.mem.pc == 0 && vm.mem.program == [] && vm.out == []
    ensures vm.stack.size == stackSize && vm.stack.Contents() == []
    ensures vm.returnStack.size == returnStackSize && vm.returnStack.Contents() == []
  {
    VM(NewStack(stackSize), NewStack(returnStackSize), Memory([], 0), [])
  }

  function DefaultVM(): (vm: VM)
    ensures vm.Valid() && vm.stack.size == DEFAULT_STACK_SIZE && vm.returnStack.size == DEFAULT_STACK_SIZE
    ensures vm.stack.Contents() == [] && vm.returnStack.Contents() == [] && vm.mem.pc == 0
  {
    NewVM(DEFAULT_STACK_SIZE, DEFAULT_STACK_SIZE)
  }

  /** The machine-level `Jump`: the counter moves to `addr` when it lies in the
      program, and nothing else changes either way. */
  function JumpTo(vm: VM, addr: int): (r: Outcome)
    ensures JumpedTo(vm, r, addr) && r.vm == vm.(mem := r.vm.mem)
  {
    match Jump(vm.mem, addr)
    case Err(e) => Outcome(vm, Some(e))
    case Ok(m) => Outcome(vm.(mem := m), None)
  }

  /** `r` is the result of a jump to `addr` from `vm`'s program memory. */
  predicate JumpedTo(vm: VM, r: Outcome, addr: int) {
    && r.vm.mem.program == vm.mem.program
    && (vm.mem.InBounds(addr) ==> r.err == None && r.vm.mem.pc == addr)
    && (!vm.mem.InBounds(addr) ==> r.err == Some(JumpOutOfBounds) && r.vm.mem.pc == vm.mem.pc)
  }

  /** Installs the result of a push on the operand stack. */
  function WithStack(vm: VM, r: Result<Stack>): Outcome
  {
    match r
    case Err(e) => Outcome(vm, Some(e))
    case Ok(s) => Outcome(vm.(stack := s), None)
  }

  /** The instructions whose first action is a pop from the operand stack. */
  predicate PopsFirst(op: Word) {
    op == PRINT || op == POP || op == ADD || op == JMP || op == JZ || op == JNZ
  }

  /** Whether a conditional jump is taken on the popped value. */
  predicate Taken(op: Word, value: Word) {
    if op == JZ then value == 0 else value != 0
  }

  /** The effect of one instruction whose operands are already loaded. A
      failing pop or push changes nothing, but an instruction that fails part
      way keeps the effects of the steps before the failure: ADD may lose one
      element, JMP/JZ/JNZ and RET keep their pop, CALL keeps its push. HALT has
      no case of its own and reports an unknown operand, like every word that
      is not an opcode. */
  function Execute(vm: VM, op: Word, params: seq<Word>): (r: Outcome)
    requires vm.Valid()
    requires GetParamsNumber(op) == Ok(ONE_PARAM) ==> |params| >= 1
    // what no instruction changes
    ensures r.vm.Valid() && r.vm.mem.program == vm.mem.program
    ensures r.vm.stack.size == vm.stack.size && r.vm.returnStack.size == vm.returnStack.size
    ensures op != PRINT ==> r.vm.out == vm.out
    ensures op != CALL && op != RET ==> r.vm.returnStack == vm.returnStack
    ensures op == CALL || op == RET ==> r.vm.stack == vm.stack
    ensures op != JMP && op != JZ && op != JNZ && op != CALL && op != RET ==> r.vm.mem == vm.mem
    // NOP, and words without a case (HALT among them)
    ensures op == NOP ==> r == Outcome(vm, None)
    ensures !(NOP <= op <= RET) ==> r == Outcome(vm, Some(UnknownOperand))
  {
    if op == NOP then
      Outcome(vm, None)
    else if op == PRINT then
      match Pop(vm.stack)
      case Err(e) => Outcome(vm, Some(e))
      case Ok(data) => Outcome(vm.(stack := data.rest, out := vm.out + [data.elem]), None)
    else if op == PUSH then
      WithStack(vm, Push(vm.stack, params[0]))
    else if op == POP then
      match Pop(vm.stack)
      case Err(e) => Outcome(vm, Some(e))
      case Ok(p) => Outcome(vm.(stack := p.rest), None)
    else if op == ADD then
      match Pop(vm.stack)
      case Err(e) => Outcome(vm, Some(e))
      case Ok(first) =>
        match Pop(first.rest)
        case Err(e) => Outcome(vm.(stack := first.rest), Some(e))
        case Ok(second) =>
          WithStack(vm.(stack := second.rest), Push(second.rest, Add(first.elem, second.elem)))
    else if op == JMP then
      match Pop(vm.stack)
      case Err(e) => Outcome(vm, Some(e))
      case Ok(addr) => JumpTo(vm.(stack := addr.rest), addr.elem as int)
    else if op == JZ || op == JNZ then
      match Pop(vm.stack)
      case Err(e) => Outcome(vm, Some(e))
      case Ok(value) =>
        if Taken(op, value.elem) then JumpTo(vm.(stack := value.rest), params[0] as int)
        else Outcome(vm.(stack := value.rest), None)
    else if op == CALL then
      match Push(vm.returnStack, Wrap(vm.mem.pc))
      case Err(e) => Outcome(vm, Some(e))
      case Ok(rs) => JumpTo(vm.(returnStack := rs), params[0] as int)
    else if op == RET then
      match Pop(vm.returnStack)
      case Err(e) => Outcome(vm, Some(e))
      case Ok(addr) => JumpTo(vm.(returnStack := addr.rest), addr.elem as int)
    else
      Outcome(vm, Some(UnknownOperand))
  }

  /** A failing first pop or push reports its error and changes nothing. */
  lemma ExecuteFirstFailure(vm: VM, op: Word, params: seq<Word>)
    requires vm.Valid()
    requires GetParamsNumber(op) == Ok(ONE_PARAM) ==> |params| >= 1
    ensures PopsFirst(op) && vm.stack.top == 0 ==> Execute(vm, op, params) == Outcome(vm, Some(Underflow))
    ensures op == PUSH && vm.stack.top == vm.stack.size ==> Execute(vm, op, params) == Outcome(vm, Some(Overflow))
    ensures op == CALL && vm.returnStack.top == vm.returnStack.size ==>
              Execute(vm, op, params) == Outcome(vm, Some(Overflow))
    ensures op == RET && vm.returnStack.top == 0 ==> Execute(vm, op, params) == Outcome(vm, Some(Underflow))
  {
  }

  /** PRINT pops the top and writes it as one character; PUSH adds its
      operand on top; POP discards the top. */
  lemma ExecuteStackOps(vm: VM, params: seq<Word>)
    requires vm.Valid()
    ensures vm.stack.top > 0 ==>
              var c := vm.stack.Contents();
              var r := Execute(vm, PRINT, params);
              r.err == None && r.vm.stack.Contents() == c[..|c| - 1] && r.vm.out == vm.out + [c[|c| - 1]]
    ensures |params| >= 1 && vm.stack.top < vm.stack.size ==>
              var r := Execute(vm, PUSH, params);
              r.err == None && r.vm.stack.Contents() == vm.stack.Contents() + [params[0]]
    ensures vm.stack.top > 0 ==>
              var c := vm.stack.Contents();
              var r := Execute(vm, POP, params);
              r.err == None && r.vm.stack.Contents() == c[..|c| - 1]
  {
  }

  /** ADD pops the top, then the element below it, and pushes their wrapping
      sum. The push cannot overflow after two pops. With a single element the
      second pop underflows and the first is not undone: the stack is left empty. */
  lemma ExecuteAdd(vm: VM)
    requires vm.Valid()
    ensures vm.stack.top == 1 ==>
              Execute(vm, ADD, []).err == Some(Underflow) && Execute(vm, ADD, []).vm.stack.Contents() == []
    ensures vm.stack.top >= 2 ==>
              var c := vm.stack.Contents();
              && Execute(vm, ADD, []).err == None
              && Execute(vm, ADD, []).vm.stack.Contents() == c[..|c| - 2] + [Add(c[|c| - 1], c[|c| - 2])]
  {
  }

  /** JMP pops its target and jumps there; the pop stays done when the jump fails. */
  lemma ExecuteJmp(vm: VM)
    requires vm.Valid() && vm.stack.top > 0
    ensures var c := vm.stack.Contents();
            var r := Execute(vm, JMP, []);
            r.vm.stack.Contents() == c[..|c| - 1] && JumpedTo(vm, r, c[|c| - 1] as int)
  {
  }

  /** JZ and JNZ pop a value and jump to their operand when it is zero
      (JZ) or non-zero (JNZ); otherwise the counter stays after the operand. */
  lemma ExecuteCondJump(vm: VM, op: Word, params: seq<Word>)
    requires vm.Valid() && vm.stack.top > 0 && (op == JZ || op == JNZ) && |params| >= 1
    ensures var c := vm.stack.Contents();
            var r := Execute(vm, op, params);
            && r.vm.stack.Contents() == c[..|c| - 1]
            && (Taken(op, c[|c| - 1]) ==> JumpedTo(vm, r, params[0] as int))
            && (!Taken(op, c[|c| - 1]) ==> r.err == None && r.vm.mem == vm.mem)
  {
  }

  /** CALL saves the counter (already past its operand, as a 32-bit word) on
      the return stack, then jumps; the saved address stays when the jump fails. */
  lemma ExecuteCall(vm: VM, params: seq<Word>)
    requires vm.Valid() && vm.returnStack.top < vm.returnStack.size && |params| >= 1
    ensures var r := Execute(vm, CALL, params);
            && r.vm.returnStack.Contents() == vm.returnStack.Contents() + [Wrap(vm.mem.pc)]
            && JumpedTo(vm, r, params[0] as int)
  {
  }

  /** RET pops a return address and jumps there; the pop stays done when the jump fails. */
  lemma ExecuteRet(vm: VM)
    requires vm.Valid() && vm.returnStack.top > 0
    ensures var rc := vm.returnStack.Contents();
            var r := Execute(vm, RET, []);
            r.vm.returnStack.Contents() == rc[..|rc| - 1] && JumpedTo(vm, r, rc[|rc| - 1] as int)
  {
  }

  /** Where the driver loop stands: still running, stopped on HALT, or stopped
      on the first error. */
  datatype Status = Running(vm: VM) | Halted(vm: VM) | Failed(vm: VM, err: Error)

  /** The error kinds a run can end with (loading errors never arise there). */
  predicate RunError(e: Error) {
    e == Overflow || e == Underflow || e == ProgramOutOfBounds || e == JumpOutOfBounds || e == UnknownOperand
  }

  /** The facts every step keeps: the stacks stay valid with their capacities,
      the program never changes, and output is only ever appended to. */
  predicate Preserved(vm: VM, vm': VM) {
    && vm'.Valid()
    && vm'.mem.program == vm.mem.program
    && vm'.stack.size == vm.stack.size && vm'.returnStack.size == vm.returnStack.size
    && vm.out <= vm'.out
  }

  /** One iteration of `Run`: fetch an opcode, stop on HALT, look up its
      arity, load its operands and execute it; the first failure ends the run
      with that error, and the machine keeps every change made before it. */
  function Step(vm: VM): (r: Status)
    requires vm.Valid()
    ensures Preserved(vm, r.vm) && |r.vm.out| <= |vm.out| + 1
    ensures r.Failed? ==> RunError(r.err)
    ensures !vm.mem.InBounds(vm.mem.pc) ==> r == Failed(vm, ProgramOutOfBounds)
    ensures r.Halted? <==> vm.mem.InBounds(vm.mem.pc) && vm.mem.program[vm.mem.pc] == HALT
    ensures r.Halted? ==> r.vm == vm.(mem := vm.mem.(pc := vm.mem.pc + 1))
    ensures vm.mem.InBounds(vm.mem.pc) && GetParamsNumber(vm.mem.program[vm.mem.pc]).Err? ==>
              r == Failed(vm.(mem := vm.mem.(pc := vm.mem.pc + 1)), UnknownOperand)
    ensures r.Running? ==> NOP <= vm.mem.program[vm.mem.pc] <= RET
  {
    match Fetch(vm.mem)
    case Err(e) => Failed(vm, e)
    case Ok(f) =>
      var vm1 := vm.(mem := f.mem);
      if f.word == HALT then
        Halted(vm1)
      else
        match GetParamsNumber(f.word)
        case Err(e) => Failed(vm1, e)
        case Ok(n) =>
          var loaded := LoadParams(vm1.mem, n);
          if loaded.err.Some? then
            Failed(vm1.(mem := loaded.mem), loaded.err.value)
          else
            var o := Execute(vm1.(mem := loaded.mem), f.word, loaded.params);
            if o.err.Some? then Failed(o.vm, o.err.value) else Running(o.vm)
  }

  /** `Run` with at most `fuel` iterations of its loop. `Running` means the
      fuel ran out before the program halted or failed; the fuel is a device of
      the model, the source's loop has no step limit. */
  function RunN(vm: VM, fuel: nat): (r: Status)
    requires vm.Valid()
    ensures Preserved(vm, r.vm)
    ensures r.Failed? ==> RunError(r.err)
    ensures r.Halted? ==> 1 <= r.vm.mem.pc <= |r.vm.mem.program| && r.vm.mem.program[r.vm.mem.pc - 1] == HALT
    decreases fuel
  {
    if fuel == 0 then
      Running(vm)
    else
      match Step(vm)
      case Running(vm') => RunN(vm', fuel - 1)
      case Halted(vm') => Halted(vm')
      case Failed(vm', e) => Failed(vm', e)
  }
}
