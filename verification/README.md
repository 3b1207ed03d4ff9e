# stack-vm in Dafny

A model of the core of `stack-vm`, a small stack-based bytecode interpreter
written in Go, together with proofs about it. The core is a fetch/decode/execute
engine over 32-bit words. The engine has an operand stack, a return-address
stack, a program and a program counter. Both stacks are bounded LIFOs with
explicit overflow and underflow errors. The repository has two machines:

- the main one in `common/` has eleven opcodes: HALT, NOP, PRINT, PUSH, POP,
  ADD, JMP, JZ, JNZ, CALL and RET;
- the legacy one in `stack-vm.go` has one stack and three opcodes. Its PRINT
  takes an immediate operand.

Everything is modelled with immutable values and pure functions.

| file | module | models |
|---|---|---|
| `words.dfy` | `Words` | `VMWord` as an `int32` newtype; Go's wrapping conversion and addition |
| `errors.dfy` | `Errors` | one error kind per error message of the source; `Result` and `Option` |
| `stack.dfy` | `Stack` | `common/stack.go`; the legacy copy in `stack-vm.go` is identical |
| `memory.dfy` | `ProgramMemory` | program and pc: `Fetch`, `Jump`, `LoadParams`, `LoadProgram`, which both machines define identically |
| `encoding.dfy` | `Encoding` | the size check of `ReadProgram`, and a pure big-endian decoding of the program bytes |
| `machine.dfy` | `Machine` | `common/vm.go`: opcodes, arity table, `NewVM`, `Execute`, one iteration of `Run` (`Step`), and `Run` with fuel (`RunN`) |
| `machine_lemmas.dfy` | `MachineLemmas` | properties of whole runs, and the documented scenarios |
| `legacy.dfy` | `Legacy` | `stack-vm.go` |

Modelling conventions:

- An operation that fails without changing anything returns `Result`. `Push`,
  `Pop`, `Fetch`, `Jump` and `CheckSize` are of this kind. A failure carries no
  state, so "unchanged on failure" holds by construction.
- Operations in the source are not transactional. An instruction can change a
  stack and then fail. `LoadParams`, `Execute` and `Step` therefore return the
  machine as it stands after the operation, together with an optional error.
- A stack's logical content is `Contents()`, its slots below `top`. Effects on
  a stack are stated on that content.
- PRINT appends the printed word to the machine's `out` sequence. Go would
  write the word as one character.
- CALL saves `VMWord(vm.pc)`, which is Go's truncating `int` to `int32`
  conversion. The model writes that conversion out as `Words.Wrap`.
- ADD uses Go's wrapping `int32` addition, written as `Words.Add`.
- The source's `Run` loops until HALT or an error, with no step limit. `Step`
  models one iteration of that loop. `RunN(vm, fuel)` runs at most `fuel`
  iterations, and a `Running` result only means the fuel ran out.
  `MachineLemmas.LoopNeverStops` proves that `PUSH 0; JMP` never stops.

Where the documentation and the code differ, the model follows the code:

- HALT has no case in `Execute` (common/vm.go:151-213). Executing HALT directly
  reports "unknown operand". Only the `Run` loop treats HALT as a normal stop.
- When HALT stops the loop, the counter has already moved past the HALT word.
- `LoadProgram` does not reset the program counter.
- `Run` returns the first error, but the machine keeps every change made
  before it. This includes the operands fetched before an out-of-bounds fetch.
- In the legacy machine, the comment on PRINT (stack-vm.go:33) says it writes
  the top of the stack, but its `Execute` writes the operand that follows the
  opcode (stack-vm.go:147-148) and never reads the stack.

## Model

| member | source | states |
|---|---|---|
| Words.Wrap | common/vm.go:197 | Go's conversion to `int32` gives a word congruent to its input modulo 2^32, and the input itself when it fits in 32 bits |
| Words.Add | common/vm.go:173 | `int32` addition equals the mathematical sum modulo 2^32; it is exact in range, and on overflow it wraps by exactly 2^32 in either direction |
| Stack.NewStack | common/stack.go:8-14 | a new stack has capacity n, top 0, empty content and n zero slots |
| Stack.Push | common/stack.go:25-32 | push overflows exactly when top == size; otherwise it writes slot `top`, raises top by one, leaves every other slot alone, keeps the invariant, and appends the element to the content |
| Stack.Pop | common/stack.go:36-44 | pop underflows exactly when top == 0; otherwise it returns `items[top-1]`, lowers top by one, leaves the slots as they were, and removes the last element of the content |
| Stack.PushPop | common/stack.go:25-44 | LIFO round trip: a pop right after a push returns the pushed element, restores top and restores the content |
| Stack.PushAll | common/stack.go:25-32 | successive pushes overflow exactly when they would exceed the capacity; otherwise the content grows by exactly the pushed elements |
| Stack.PopAll | common/stack.go:36-44 | n successive pops underflow exactly when n > top; otherwise they return the top n elements, most recent first |
| Stack.FillThenDrain | common/stack.go:25-44 | for every capacity C, C pushes succeed and the next one overflows; C pops then return the elements in reverse order, and the next pop underflows |
| ProgramMemory.Fetch | common/vm.go:237-245 | fetch fails with "program out of bounds" exactly when pc is outside [0, len); otherwise it returns `program[pc]` and advances pc by exactly 1 |
| ProgramMemory.Jump | common/vm.go:70-77 | a jump succeeds exactly when 0 <= addr < len, and then sets pc to addr; otherwise it reports "jump out of memory bounds" |
| ProgramMemory.JumpThenFetch | common/vm.go:70-77 | a jump accepts exactly the addresses a fetch can read, and the fetch after a jump reads the word at the target |
| ProgramMemory.LoadParams | common/vm.go:223-233 | n fetches in a row succeed exactly when pc..pc+n lies in the program; they then return `program[pc..pc+n]` and advance pc by n; otherwise pc stops at the first failing fetch, the words read so far are kept and the rest are zero |
| ProgramMemory.LoadProgram | common/vm.go:258-272 | an empty program is refused with "empty program"; any other program is copied element by element, and pc is not reset |
| Encoding.CheckSize | common/vm.go:277-281 | with Go's truncating `/` and `%`, the size check accepts exactly the positive multiples of 4, and yields size/4 words |
| Encoding.ReadProgram | common/vm.go:276-285 | a byte sequence is refused exactly when its length is 0 or not a multiple of 4; otherwise it gives length/4 words |
| Encoding.DecodeEncodeWord | common/vm.go:283 | decoding the big-endian bytes of a word gives the word back |
| Encoding.EncodeDecodeWord | common/vm.go:283 | re-encoding a decoded word gives the same four bytes |
| Encoding.ReadEncoded | common/vm.go:276-285 | every non-empty program survives encoding followed by `ReadProgram` |
| Encoding.ReadProgramExact | common/vm.go:276-285 | every byte sequence `ReadProgram` accepts is exactly the encoding of the words it returns |
| Machine.GetParamsNumber | common/vm.go:81-109 | the arity table: PUSH, JZ, JNZ and CALL take 1 operand; the other seven opcodes take 0; every other word is an unknown operand |
| Machine.NewVM | common/vm.go:119-126 | a new machine has empty stacks of the requested capacities, no program, pc 0 and no output |
| Machine.DefaultVM | common/vm.go:113-115 | the default machine has both stacks of capacity 1024 |
| Machine.JumpTo | common/vm.go:70-77 | a jump on the machine moves only the counter: both stacks and the output are untouched, whether it succeeds or fails |
| Machine.Execute | common/vm.go:151-213 | no instruction changes the program or the stack capacities or breaks the stack invariant; only PRINT writes output; only CALL and RET touch the return stack, and they leave the operand stack alone; only jumps move pc; NOP changes nothing; HALT and every word outside NOP..RET report "unknown operand" and change nothing |
| Machine.ExecuteFirstFailure | common/vm.go:154-207 | when the first pop or push of an instruction fails, the instruction reports that error and changes nothing |
| Machine.ExecuteStackOps | common/vm.go:154-163 | PRINT removes the top and writes exactly that one word; PUSH appends its operand to the content; POP removes the top |
| Machine.ExecuteAdd | common/vm.go:164-173 | ADD replaces the top two elements with (top + second) wrapped to 32 bits, and cannot overflow; with a single element it underflows and leaves the stack empty, with no rollback |
| Machine.ExecuteJmp | common/vm.go:174-179 | JMP pops its target and jumps there; when the jump fails, the pop stays done and pc is unchanged |
| Machine.ExecuteCondJump | common/vm.go:180-195 | JZ/JNZ pop a value and jump to their operand when it is zero / non-zero; otherwise pc stays after the operand; the pop stays done either way |
| Machine.ExecuteCall | common/vm.go:196-201 | CALL puts the current pc, already past the operand and converted to 32 bits, on the return stack, then jumps; the saved entry stays when the jump fails |
| Machine.ExecuteRet | common/vm.go:202-207 | RET pops a return address and jumps there; the pop stays done when the jump fails |
| Machine.Step | common/vm.go:129-147 | one iteration stops on HALT exactly when the word at pc is HALT, and then only advances pc; outside the program it fails out of bounds and changes nothing; an unknown opcode fails after advancing pc by one; a failure is only ever a run-time error kind; the stacks stay valid, the program is fixed, and output only grows, by at most one word |
| Machine.RunN | common/vm.go:129-147 | a run keeps the stack invariant and capacities, never changes the program, and only appends output; it ends with a run-time error kind or with HALT, and when it halts, the word just before pc is HALT |
| MachineLemmas.RunNUnfold | common/vm.go:132 | a run is one iteration followed by the rest of the run, unless that iteration stopped it |
| MachineLemmas.RunNOneMore | common/vm.go:129-147 | a run that stopped gives the same result with one more iteration allowed |
| MachineLemmas.RunNStable | common/vm.go:129-147 | a run that stopped gives the same result with any amount of extra fuel: it ends once, with one outcome |
| MachineLemmas.StepMissingOperand | common/vm.go:137-140 | an instruction whose operands run past the end of the program fails with "program out of bounds", and pc is left at the end |
| MachineLemmas.StepExecutes | common/vm.go:133-144 | an iteration on a known opcode other than HALT, with its operands present, is exactly `Execute` with the operands that follow the opcode; the error it reports is Execute's error, unmodified |
| MachineLemmas.ArityMatchesExecute | common/vm.go:81-109 | `Execute` reports "unknown operand" exactly for HALT and the words the arity table rejects |
| MachineLemmas.CallThenRet | common/vm.go:196-207 | CALL then RET restores pc, the return stack content and the operand stack, when the saved address is in the program |
| MachineLemmas.CallFailureKeepsReturnAddress | common/vm.go:196-201 | a CALL to an address outside the program fails, yet its return address stays pushed and pc is unchanged |
| MachineLemmas.NopHalt | common/vm.go:129-147 | `[NOP, HALT]` halts with pc 2 and an empty operand stack |
| MachineLemmas.PrintA | common/vm.go:154-159 | `[PUSH, 65, PRINT, HALT]` writes the single character 'A' and halts |
| MachineLemmas.AddOneTwo | common/vm.go:164-173 | after pushing 1 and then 2, ADD leaves exactly one element, 3 |
| MachineLemmas.RunOffTheEnd | common/vm.go:237-241 | running off the end of `[NOP]` fails with "program out of bounds" |
| MachineLemmas.LoopRoundTrip | common/vm.go:132-144 | from pc 0 with an empty stack of capacity at least 1, whatever its slots hold, two iterations of `PUSH 0; JMP` return to pc 0 with an empty stack |
| MachineLemmas.LoopNeverStops | common/vm.go:132 | from any machine at pc 0 of `PUSH 0; JMP` with an empty stack of capacity at least 1, no fuel makes the run halt or fail |
| MachineLemmas.LoopFromBoot | common/vm.go:132 | the same holds for a freshly loaded `[PUSH, 0, JMP]` machine |
| Legacy.GetParamNumber | stack-vm.go:54-66 | legacy arity table: HALT and NOP take 0 operands, PRINT takes 1, and every other word is an unknown operand |
| Legacy.NewVM | stack-vm.go:113-119 | a new legacy machine has pc 0 and a new stack of capacity n, with zero slots |
| Legacy.DefaultVM | stack-vm.go:108-110 | the default legacy machine has a stack of capacity 1024 |
| Legacy.Execute | stack-vm.go:144-154 | NOP changes nothing; PRINT writes its operand and touches neither the stack nor pc; HALT and unknown words report "unknown operand" |
| Legacy.Step | stack-vm.go:122-140 | outside the program it fails out of bounds; it halts exactly on HALT, with pc past it; an unknown word fails with "unknown operand" and pc past it; NOP continues with pc + 1 and the output unchanged; PRINT with no operand word left fails out of bounds with pc at the program's end, and otherwise appends `program[pc+1]` and continues at pc + 2; the stack is never touched |
| Legacy.RunN | stack-vm.go:122-140 | a legacy run never touches its stack or its program, prints only words from the program, fails only out of bounds or on an unknown operand, and when it halts, the word before pc is HALT |
| Legacy.JumpScenario | stack-vm.go:43-50 | on `[NOP, HALT]`, jumps to 100 and -100 fail and a jump to 1 sets pc to 1 |
| Legacy.FetchScenario | stack-vm.go:171-179 | on `[HALT]`, a fetch returns HALT with pc 1, and a second fetch is out of bounds |
| Legacy.LoadParamsScenario | stack-vm.go:157-167 | loading 0 operands succeeds without a program; loading 1 reads the next word; loading 1 past the end is out of bounds |
| Legacy.RunScenario | stack-vm.go:122-140 | `[NOP, HALT]` halts with pc 2 and stack top 0 |
| Legacy.PrintScenario | stack-vm.go:147-148 | `[PRINT, 'a', HALT]` writes 'a' and halts, with the stack untouched |
| Legacy.StackScenario | stack-vm.go:86-105 | on capacity 1: push 1 fills slot 0, a second push overflows, a pop returns 1, and a second pop underflows |

## Left out

- Output device: `fmt.Fprintf(out, "%c", …)` and its UTF-8 encoding are not modelled. Writer errors are not modelled either; common PRINT would return them (common/vm.go:216-219), and legacy PRINT drops them. Output is an append-only sequence of words that never fails.
- `DefaultWriter` and `DEFAULT_WRITER` are process-wide writer globals. They only select where output goes, so they are not modelled.
- `binary.Read` from a reader (common/vm.go:283) is library I/O. It is modelled as `Encoding.ReadProgram`, a pure big-endian decoding of an in-memory byte sequence. A short or failing reader is not modelled.
- `cmd/svm/main.go` is not part of this model: it handles arguments, opens the file, prints the banner and exits the process. Neither is `common/utils.go`, the `SizedReader` wrapper.
- `main` and `getProgramHeader` in stack-vm.go:207-214 only format a banner.
- Non-termination of `Run` is represented by the fuel of `RunN`, which is not a step limit of the semantics.
- Go's `int` is 64 bits wide, so `pc + 1` could in principle overflow. The model's pc is unbounded, since pc never exceeds the program length.
- Go panics are excluded by preconditions, and the source never triggers them. They are: `make` with a negative stack size, so capacities are `nat`; indexing `params[0]` without an operand, which `Execute` requires only when the arity table gives one operand; and writing outside `items` on a corrupted stack, so `Valid()` is required.
- Machine.Execute: its own contract states only the frame (what each instruction may not touch), NOP, and unknown words. The per-opcode effects are stated by the `Machine.Execute*` lemmas in the table.
- ProgramMemory.LoadProgram is a method, so the scenario lemmas build the loaded memory `Memory(program, 0)` directly. That is the value its contract guarantees for a machine whose pc is 0.
