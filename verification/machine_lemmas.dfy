/** Properties of whole runs of the common/vm.go engine, and the behaviours
    its tests and documentation describe, proved about the model. */
module MachineLemmas {
  import opened Words
  import opened Errors
  import opened Stack
  import opened ProgramMemory
  import opened Machine

  /** A new machine with `program` loaded, as `NewVM` followed by a successful `LoadProgram`. */
  function Boot(program: seq<Word>, stackSize: nat, returnStackSize: nat): (vm: VM)
    ensures vm.Valid() && vm.mem == Memory(program, 0)
  {
    NewVM(stackSize, returnStackSize).(mem := Memory(program, 0))
  }

  /** One iteration of the loop, then the rest of the fuel. */
  lemma RunNUnfold(vm: VM, fuel: nat)
    requires vm.Valid() && fuel > 0
    ensures RunN(vm, fuel) == (if Step(vm).Running? then RunN(Step(vm).vm, fuel - 1) else Step(vm))
  {
  }

  /** A run that has stopped stays stopped with one more unit of fuel. */
  lemma {:induction false} RunNOneMore(vm: VM, k: nat)
    requires vm.Valid() && !RunN(vm, k).Running?
    ensures RunN(vm, k + 1) == RunN(vm, k)
    decreases k
  {
    RunNUnfold(vm, k);
    RunNUnfold(vm, k + 1);
    var s := Step(vm);
    if s.Running? {
      RunNOneMore(s.vm, k - 1);
    }
  }

  /** The result of a run that stopped does not depend on how much more fuel
      it is given: a run ends once, with one outcome. */
  lemma {:induction false} RunNStable(vm: VM, k: nat, k': nat)
    requires vm.Valid() && k <= k'
    requires !RunN(vm, k).Running?
    ensures RunN(vm, k') == RunN(vm, k)
    decreases k' - k
  {
    if k < k' {
      RunNOneMore(vm, k);
      RunNStable(vm, k + 1, k');
    }
  }

  /** A step of a known opcode other than HALT whose operands run past the
      end of the program fails out of bounds, with the counter stopped at the end. */
  lemma StepMissingOperand(vm: VM)
    requires vm.Valid() && vm.mem.InBounds(vm.mem.pc)
    requires vm.mem.program[vm.mem.pc] != HALT && GetParamsNumber(vm.mem.program[vm.mem.pc]).Ok?
    requires vm.mem.pc + 1 + GetParamsNumber(vm.mem.program[vm.mem.pc]).value > |vm.mem.program|
    ensures Step(vm) == Failed(vm.(mem := vm.mem.(pc := |vm.mem.program|)), ProgramOutOfBounds)
  {
    var op := vm.mem.program[vm.mem.pc];
    var m1 := vm.mem.(pc := vm.mem.pc + 1);
    assert Fetch(vm.mem) == Ok(Fetched(op, m1));
    var loaded := LoadParams(m1, GetParamsNumber(op).value);
    assert loaded.err == Some(ProgramOutOfBounds) && loaded.mem == m1.(pc := |vm.mem.program|);
  }

  /** A step of a known opcode other than HALT whose operands are in the
      program is exactly the execution of that instruction with the operands
      that follow it: the step fails precisely when the execution reports an
      error, with that error, and leaves the machine as the execution does. */
  lemma StepExecutes(vm: VM)
    requires vm.Valid() && vm.mem.InBounds(vm.mem.pc)
    requires vm.mem.program[vm.mem.pc] != HALT && GetParamsNumber(vm.mem.program[vm.mem.pc]).Ok?
    requires vm.mem.pc + 1 + GetParamsNumber(vm.mem.program[vm.mem.pc]).value <= |vm.mem.program|
    ensures var op := vm.mem.program[vm.mem.pc];
            var next := vm.mem.pc + 1 + GetParamsNumber(op).value;
            var o := Execute(vm.(mem := vm.mem.(pc := next)), op, vm.mem.program[vm.mem.pc + 1..next]);
            && Step(vm).vm == o.vm
            && (Step(vm).Running? <==> o.err.None?)
            && (Step(vm).Failed? ==> o.err == Some(Step(vm).err))
  {
    var op := vm.mem.program[vm.mem.pc];
    var n := GetParamsNumber(op).value;
    var m1 := vm.mem.(pc := vm.mem.pc + 1);
    assert Fetch(vm.mem) == Ok(Fetched(op, m1));
    var loaded := LoadParams(m1, n);
    assert loaded.err == None && loaded.mem == vm.mem.(pc := vm.mem.pc + 1 + n);
    assert loaded.params == vm.mem.program[vm.mem.pc + 1..vm.mem.pc + 1 + n];
  }

  /** The arity table and `Execute` agree on the instruction set: with its
      operands loaded, an opcode the table knows never reports an unknown
      operand, except HALT, which the loop handles before `Execute`; every word
      the table does not know does. */
  lemma ArityMatchesExecute(vm: VM, op: Word, params: seq<Word>)
    requires vm.Valid()
    requires GetParamsNumber(op).Ok? ==> |params| == GetParamsNumber(op).value
    ensures Execute(vm, op, params).err == Some(UnknownOperand) <==> op == HALT || GetParamsNumber(op).Err?
  {
  }

  /** CALL then RET comes back: the return stack and the operand stack are
      restored and the counter is the one CALL saved, provided that address is
      in the program (so it survives the conversion to a 32-bit word). */
  lemma CallThenRet(vm: VM, target: Word)
    requires vm.Valid()
    requires vm.returnStack.top < vm.returnStack.size
    requires vm.mem.InBounds(target as int) && vm.mem.InBounds(vm.mem.pc)
    requires |vm.mem.program| <= 0x8000_0000
    ensures Execute(vm, CALL, [target]).err == None
    ensures Execute(vm, CALL, [target]).vm.mem.pc == target as int
    ensures Execute(Execute(vm, CALL, [target]).vm, RET, []).err == None
    ensures Execute(Execute(vm, CALL, [target]).vm, RET, []).vm.mem.pc == vm.mem.pc
    ensures Execute(Execute(vm, CALL, [target]).vm, RET, []).vm.returnStack.Contents() == vm.returnStack.Contents()
    ensures Execute(Execute(vm, CALL, [target]).vm, RET, []).vm.stack == vm.stack
  {
    var called := Execute(vm, CALL, [target]);
    var rc := called.vm.returnStack.Contents();
    assert rc == vm.returnStack.Contents() + [Wrap(vm.mem.pc)];
    assert rc[|rc| - 1] as int == vm.mem.pc;
    assert rc[..|rc| - 1] == vm.returnStack.Contents();
  }

  /** A CALL whose target is out of bounds fails, yet the return address it
      pushed stays on the return stack. */
  lemma CallFailureKeepsReturnAddress(vm: VM, target: Word)
    requires vm.Valid()
    requires vm.returnStack.top < vm.returnStack.size && !vm.mem.InBounds(target as int)
    ensures Execute(vm, CALL, [target]).err == Some(JumpOutOfBounds)
    ensures Execute(vm, CALL, [target]).vm.returnStack.top == vm.returnStack.top + 1
    ensures Execute(vm, CALL, [target]).vm.mem == vm.mem
  {
    assert Execute(vm, CALL, [target]).vm.returnStack.Contents() == vm.returnStack.Contents() + [Wrap(vm.mem.pc)];
  }

  /** Scenario: `[NOP, HALT]` halts after two iterations with pc 2 and an empty
      operand stack, even with stacks of capacity 0. */
  lemma NopHalt()
    ensures RunN(Boot([NOP, HALT], 0, 0), 2).Halted?
    ensures RunN(Boot([NOP, HALT], 0, 0), 2).vm.mem.pc == 2
    ensures RunN(Boot([NOP, HALT], 0, 0), 2).vm.stack.top == 0
  {
    var vm := Boot([NOP, HALT], 0, 0);
    assert Step(vm) == Running(vm.(mem := Memory([NOP, HALT], 1)));
  }

  /** Scenario: `[PUSH, 65, PRINT, HALT]` writes the single character 'A' and halts. */
  lemma PrintA()
    ensures RunN(Boot([PUSH, 65, PRINT, HALT], 1, 0), 3).Halted?
    ensures RunN(Boot([PUSH, 65, PRINT, HALT], 1, 0), 3).vm.out == ['A' as int as Word]
  {
    var vm := Boot([PUSH, 65, PRINT, HALT], 1, 0);
    var s1 := Step(vm);
    assert s1.Running? && s1.vm.mem.pc == 2 && s1.vm.stack.Contents() == [65] && s1.vm.out == [];
    var s2 := Step(s1.vm);
    assert s2.Running? && s2.vm.mem.pc == 3 && s2.vm.out == [65];
    assert RunN(vm, 3) == RunN(s1.vm, 2) == RunN(s2.vm, 1);
  }

  /** Scenario: with 1 and then 2 pushed, ADD leaves exactly one element, 3. */
  lemma AddOneTwo(vm: VM)
    requires vm.Valid() && vm.stack.top == 0 && vm.stack.size >= 2
    ensures Execute(Execute(Execute(vm, PUSH, [1]).vm, PUSH, [2]).vm, ADD, []).err == None
    ensures Execute(Execute(Execute(vm, PUSH, [1]).vm, PUSH, [2]).vm, ADD, []).vm.stack.Contents() == [3]
  {
    var one := Execute(vm, PUSH, [1]).vm;
    assert one.stack.Contents() == [1];
    var two := Execute(one, PUSH, [2]).vm;
    assert two.stack.Contents() == [1, 2];
  }

  /** Scenario: running off the end of `[NOP]` fails with a program out of
      bounds error after the NOP. */
  lemma RunOffTheEnd()
    ensures RunN(Boot([NOP], 0, 0), 2) == Failed(Boot([NOP], 0, 0).(mem := Memory([NOP], 1)), ProgramOutOfBounds)
  {
    var vm := Boot([NOP], 0, 0);
    assert Step(vm) == Running(vm.(mem := Memory([NOP], 1)));
  }

  /** The machine state at the head of the loop `PUSH 0; JMP`. */
  predicate AtLoopHead(vm: VM) {
    && vm.Valid()
    && vm.mem == Memory([PUSH, 0, JMP], 0)
    && vm.stack.top == 0 && vm.stack.size >= 1
  }

  /** Two iterations of the loop push 0, pop it as the jump target and come
      back to the head: whatever the stack slots held before, the machine is
      at the head again with the same capacity and an empty stack. */
  lemma LoopRoundTrip(vm: VM, fuel: nat) returns (head: VM)
    requires AtLoopHead(vm) && fuel >= 2
    ensures AtLoopHead(head) && RunN(vm, fuel) == RunN(head, fuel - 2)
  {
    var s1 := Step(vm);
    assert s1.Running? && s1.vm.stack.Contents() == [0] && s1.vm.mem.pc == 2;
    var s2 := Step(s1.vm);
    assert s2.Running? && s2.vm.mem == vm.mem && s2.vm.stack.top == 0;
    RunNUnfold(vm, fuel);
    RunNUnfold(s1.vm, fuel - 1);
    head := s2.vm;
  }

  /** `PUSH 0; JMP` jumps back to its start forever: no amount of fuel makes
      the run halt or fail. The source's loop has no step limit, so it never
      returns. */
  lemma {:induction false} LoopNeverStops(vm: VM, fuel: nat)
    requires AtLoopHead(vm)
    ensures RunN(vm, fuel).Running?
    decreases fuel
  {
    if fuel >= 2 {
      var head := LoopRoundTrip(vm, fuel);
      LoopNeverStops(head, fuel - 2);
    } else if fuel == 1 {
      var s1 := Step(vm);
      assert s1.Running? && s1.vm.stack.Contents() == [0];
    }
  }

  lemma LoopFromBoot(fuel: nat)
    ensures RunN(Boot([PUSH, 0, JMP], 1, 0), fuel).Running?
  {
    LoopNeverStops(Boot([PUSH, 0, JMP], 1, 0), fuel);
  }
}
