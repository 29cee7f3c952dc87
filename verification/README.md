# A verified model of a Synacor VM interpreter and its teleporter solver

This project models two programs in Dafny and proves properties about them.

The first is `synacor.py`, an interpreter for the Synacor Challenge virtual machine. The machine has:

- a 32768-word memory;
- eight registers;
- an unbounded stack;
- a program counter.

It runs 22 opcodes over 15-bit words, with an operator console and a debugger.

The second is `teleporter.cpp`, a memoised, Ackermann-like recurrence modulo 32768. Its search loop finds the value the interpreter plants in register 8.

The model has two layers:

- **A reference semantics made of pure functions** (`Semantics`). It covers:
  - operand resolution;
  - the handlers;
  - the input channel;
  - one iteration of the run loop, including its debugger bookkeeping;
  - bounded runs;
  - loading and patching.
- **The `VM` class** (`Interpreter.VM`), which keeps the source's imperative form:
  - memory and registers are arrays updated in place;
  - stack, pc, input buffer, console lines, output and debugger state are fields.

  Every handler and loop method is proved to produce exactly the state the reference semantics prescribes. The debugger commands and the bookkeeping helpers (`SetRegister`, `SetSkip`, `SetWatch`, `ToggleDebug`, `Pause`, `Record`, `RenderLine`) state their effect on the fields directly. Lemmas about the reference semantics (`Properties`) then carry over to the class.

The other modules hold:

- `Word`: words, faults, `read` and `write`;
- `Walkthrough`: the abbreviation table and `get_from_ap`;
- `Disassembly`: the opcode table and the debugger's rendering of an instruction;
- `Teleporter`: the recurrence, its memo table and the search.

The walkthrough table is abstract. Its acyclicity is witnessed by a rank map, and expansion terminates by that rank.

## Behaviour worth noting

- **`ret`** passes the popped value through `read` before it becomes the pc (`synacor.py:218-220`). A `call` at 32766 pushes 32768, so the later `ret` jumps to r1's value (`Properties.CallAtEndReturnsToR1`).
- **The "instruction changed" check** fires only in debug mode (`synacor.py:321-324`), although every fetch caches the rendering. An empty cached string counts as no entry, because the code tests it for truth.
- **The `%` hook** is part of `in_` (`synacor.py:234-236`): a buffered `%` sets register 8 to 25734 and `in_` starts over.
- **Loading an odd number of bytes** stores every complete pair and then fails (`synacor.py:93-95`). A stored word can exceed 32767.

## Model

| member | source | states |
|---|---|---|
| Word.ReadOperand | synacor.py:100-111 | a value below 32768 reads as itself; 32768..32775 reads register `v - 32768`; anything larger fails with that value; with word registers the result is a word |
| Word.WriteRegister | synacor.py:113-123 | succeeds exactly for targets 32768..32775; stores the value reduced mod 32768 (always a word, congruent to the value); leaves every other register unchanged; keeps all registers words |
| Word.And | synacor.py:188-191 | the bitwise and of two words is a word |
| Word.Or | synacor.py:193-196 | the bitwise or of two words is a word |
| Word.BitwiseLaws | synacor.py:188-196 | on words `&` and `\|` commute, `x & 0 == 0`, `x \| 0 == x`, and both are idempotent |
| Word.Complement | synacor.py:200 | Python's `~x` on a word is negative, and reduced mod 32768 it is `32767 - x` |
| Word.ComplementIsFlip | synacor.py:198-201 | complementing twice, reducing after each, restores the word |
| Walkthrough.ExpandAllAppend | synacor.py:72-75 | expanding a concatenation is the concatenation of the expansions |
| Walkthrough.Expand | synacor.py:72-75 | `get_from_ap` yields only commands that are not table keys, and a string expands to itself exactly when it is not a key |
| Walkthrough.ExpandAll | synacor.py:72-75 | the comprehension over a list yields only commands that are not table keys |
| Walkthrough.ExpandAllOfPlain | synacor.py:72-75 | a list of non-key commands expands to itself |
| Walkthrough.ExpandIdempotent | synacor.py:72-75 | expanding the result of an expansion changes nothing |
| Disassembly.Arity | synacor.py:304-305 | every handler takes at most three operands |
| Disassembly.NatStr | synacor.py:312 | a decimal rendering is a non-empty string of digits |
| Disassembly.NatStrRoundTrip | synacor.py:312 | reading a decimal rendering back gives the number |
| Disassembly.NatStrInjective | synacor.py:312 | different numbers render differently |
| Disassembly.Name | synacor.py:312 | a mnemonic is two to four lower-case letters, the handler's name without its underscore |
| Disassembly.OperandStr | synacor.py:313-318 | an operand's rendering contains no space |
| Disassembly.OperandStrHead | synacor.py:313-318 | a rendering starts with `r` exactly when the operand names a register |
| Disassembly.OperandStrInjective | synacor.py:313-318 | different operand words render differently |
| Disassembly.OperandsStr | synacor.py:313-318 | the operand text takes at least two characters per operand (a space and at least one character) |
| Disassembly.OperandsStrShape | synacor.py:313-318 | the operand text is empty exactly when there are no operands, and otherwise starts with a space |
| Disassembly.OperandsStrInjective | synacor.py:313-318 | the operand text determines the operand words |
| Disassembly.NameInjective | synacor.py:312 | different opcodes have different mnemonics |
| Disassembly.NameHasNoSpace | synacor.py:312 | no mnemonic contains a space |
| Disassembly.Render | synacor.py:312-318 | a rendering is never empty; it starts with the decimal address followed by `\|` |
| Disassembly.RenderInjective | synacor.py:312-324 | two renderings at one address are equal exactly when opcode and operand words are equal, so comparing cached text compares code |
| Semantics.Store | synacor.py:113-123 | a handler's `write` succeeds exactly for targets 32768..32775 and then stores the value reduced mod 32768 in that register and changes nothing else; otherwise it fails with the target and nothing changes; the state stays well formed |
| Semantics.JumpTo | synacor.py:154-157 | `jmp` jumps exactly when its operand reads, and then only the pc changes, to `read(v)`; otherwise it fails with the operand and nothing changes |
| Semantics.BinaryValue | synacor.py:144-196 | only `mod` by zero fails (division by zero); `eq` and `gt` produce 0 or 1 |
| Semantics.Operands | synacor.py:309 | the operands are exactly `Arity(op)` words, the ones following pc in memory |
| Semantics.WatchHit | synacor.py:310 | a hit needs a non-empty watch set and at least one operand, and any operand naming a watched register is a hit |
| Semantics.Feed | synacor.py:97-98 | the fed text is empty exactly when there are no lines |
| Semantics.Consume | synacor.py:227-236 | `in_` never delivers `%`; its only failures are no operator line left and an empty expansion; it never reads more lines than there are |
| Semantics.Input | synacor.py:227-239 | `in_` changes only the registers, the buffer and the operator lines; it either continues or fails with a bad target, no line left or an empty expansion |
| Semantics.ExecInHook | synacor.py:233-236 | dropping a leading `%` and setting register 8 to 25734 leaves the result of `in_` unchanged, which justifies the recursive call |
| Semantics.ExecInRefill | synacor.py:229-233 | refilling an empty buffer from the next operator line leaves the result of `in_` unchanged when the refill is not empty |
| Semantics.Exec | synacor.py:125-243 | every handler keeps the state well formed; only a jump moves the pc; only `halt` halts; only `wmem` changes memory; only `push`/`pop`/`call`/`ret` change the stack; only `out` prints; no handler raises "instruction changed" |
| Semantics.Step | synacor.py:297-338 | one iteration keeps the state well formed; it ends "off the end" exactly when pc is 32768, changing nothing then; output grows only on a continuing step; the debug flag is kept |
| Semantics.Cycle | synacor.py:310-338 | the part of an iteration after the fetch checks keeps the state well formed, never ends "off the end", grows the output only when continuing, and keeps the debug flag |
| Semantics.Advance | synacor.py:330-338 | after the handler the outcome is never "off the end"; only the jump set of the debugger state changes |
| Semantics.Run | synacor.py:297-338 | a bounded run keeps the state well formed and ends "off the end" only with pc at 32768 |
| Semantics.RunUnfold | synacor.py:297-338 | a run with fuel left is one iteration followed by the rest of the run |
| Semantics.LittleEndian | synacor.py:94-95 | a loaded word's low byte is the first byte and its high byte the second |
| Semantics.Loaded | synacor.py:90-95 | loading leaves a memory of 32768 words |
| Semantics.Patch | synacor.py:340-345 | patching leaves a memory of 32768 words |
| Interpreter.VM.constructor | synacor.py:78-88 | a new machine has zeroed memory and registers, an empty stack and buffer, pc 0 and an empty debugger state |
| Interpreter.VM.LoadProgram | synacor.py:90-95 | succeeds exactly for an even number of bytes that fits in memory; memory becomes `Loaded` of the old memory and the bytes, also after a failure |
| Interpreter.VM.Modify | synacor.py:340-345 | memory becomes `Patch` of the old memory |
| Interpreter.VM.SendInput | synacor.py:97-98 | appends the line and a newline to the buffer and changes nothing else |
| Interpreter.VM.Read | synacor.py:100-111 | returns `ReadOperand` of the register array |
| Interpreter.VM.Write | synacor.py:113-123 | updates the registers exactly as `Store` prescribes |
| Interpreter.VM.Set | synacor.py:129-132 | the `set` handler matches `Exec` |
| Interpreter.VM.Push | synacor.py:134-137 | the `push` handler matches `Exec` |
| Interpreter.VM.Pop | synacor.py:139-142 | the `pop` handler matches `Exec`, including the underflow fault |
| Interpreter.VM.Binary | synacor.py:144-196 | `eq`, `gt`, `add`, `mult`, `mod`, `and` and `or` match `Exec` |
| Interpreter.VM.Jmp | synacor.py:154-157 | `jmp` matches `JumpTo` |
| Interpreter.VM.JumpIf | synacor.py:159-171 | `jt` and `jf` match `Exec` |
| Interpreter.VM.Not | synacor.py:198-201 | the `not` handler matches `Exec` |
| Interpreter.VM.Rmem | synacor.py:203-206 | the `rmem` handler matches `Exec` |
| Interpreter.VM.Wmem | synacor.py:208-211 | the `wmem` handler matches `Exec`, with the value operand read first |
| Interpreter.VM.Call | synacor.py:213-216 | the `call` handler matches `Exec`, pushing before reading the target |
| Interpreter.VM.Ret | synacor.py:218-220 | the `ret` handler matches `Exec` |
| Interpreter.VM.Out | synacor.py:222-225 | the `out` handler matches `Exec`, appending the code to the output |
| Interpreter.VM.Refill | synacor.py:229-231 | refilling sends every line of the expanded operator line and consumes that line |
| Interpreter.VM.In | synacor.py:227-239 | `in_` (refill when the buffer is empty, then take a character) matches `Exec`, including both input faults |
| Interpreter.VM.Take | synacor.py:233-239 | taking the first buffered character (a `%` sets register 8 and recurses into `in_`, anything else is written) matches `Exec` |
| Interpreter.VM.Execute | synacor.py:125-243 | dispatch on the opcode matches `Exec` for all 22 handlers |
| Interpreter.VM.RenderLine | synacor.py:312-318 | the rendering built operand by operand equals `Render` |
| Interpreter.VM.Record | synacor.py:310-320 | clears the watch set exactly on a watch hit and caches the rendering at pc |
| Interpreter.VM.Pause | synacor.py:325-328 | counts `skip` down, or runs on under a watch, or takes one operator line; fails only with no line left |
| Interpreter.VM.Step | synacor.py:297-338 | one iteration of the loop body produces exactly `Semantics.Step`'s machine, debugger state and outcome |
| Interpreter.VM.Cycle | synacor.py:310-338 | rendering, caching, the debug checks and pause, then the handler, produce exactly `Semantics.Cycle` |
| Interpreter.VM.Advance | synacor.py:330-338 | the tail of an iteration matches `Semantics.Advance` |
| Interpreter.VM.Tick | synacor.py:297-338 | one loop iteration turns a run with `n` iterations left into one with `n - 1` left from the new state, or stops with the iteration's outcome |
| Interpreter.VM.Run | synacor.py:297-338 | the loop, for at most `fuel` iterations, produces exactly `Semantics.Run` |
| Interpreter.VM.SetRegister | synacor.py:258-260 | accepts register numbers -7..8 (Python indexing from the end below 1); stores the value unreduced; the class invariant survives exactly when the value is a word |
| Interpreter.VM.SetSkip | synacor.py:266-268 | sets the step counter and nothing else |
| Interpreter.VM.SetWatch | synacor.py:270-272 | the watch set becomes the given register numbers minus one |
| Interpreter.VM.ToggleDebug | synacor.py:262-264 | flips debug mode and nothing else |
| Properties.BinaryStores | synacor.py:144-196 | three-operand handlers store a bit (`eq`, `gt`), the sum or product mod 32768, or the remainder in the target only; `mod` by zero fails with nothing changed |
| Properties.AndStores | synacor.py:188-191 | `and a b c` stores `read(b) & read(c)` in register `a`, continues, and changes nothing else |
| Properties.OrStores | synacor.py:193-196 | `or a b c` stores `read(b) \| read(c)` in register `a`, continues, and changes nothing else |
| Properties.SetStores | synacor.py:129-132 | `set a b` stores `read(b)` in register `a` and changes nothing else |
| Properties.JmpJumps | synacor.py:154-157 | `jmp a` sets the pc to `read(a)`, reports a jump and changes nothing else |
| Properties.CondJumps | synacor.py:159-171 | `jt a b` jumps to `read(b)` exactly when `read(a)` is non-zero and `jf a b` exactly when it is zero; otherwise nothing changes |
| Properties.MemoryMoves | synacor.py:203-211 | `rmem a b` stores the memory word at `read(b)`, reduced mod 32768, in register `a`; `wmem a b` stores `read(b)` at address `read(a)`; nothing else changes |
| Properties.NotTwiceRestores | synacor.py:198-201 | `not r r` stores `32767 - r`, and doing it again restores the machine |
| Properties.PushThenPop | synacor.py:134-142 | `push b; pop a` moves `read(b)` into `a` and leaves the stack as before |
| Properties.EmptyStackRaises | synacor.py:139-142 | `pop` and `ret` on an empty stack fail with a stack underflow and change nothing |
| Properties.StepFetchFaults | synacor.py:298-307 | an unknown opcode, or operands past the end of memory, fail before anything changes |
| Properties.StepDispatch | synacor.py:330-338 | outside debug mode: continue moves pc by arity + 1; a jump keeps the handler's pc and records it; halt stops; a fault stops with the handler's partial state |
| Properties.StepBookkeeping | synacor.py:310-320 | every fetch caches the rendering at pc; the watch set is cleared exactly when an operand names a watched register |
| Properties.DebugDetectsChangedCode | synacor.py:319-324 | with an earlier rendering of some code cached at pc, "instruction changed" is raised exactly when debug is on and the code there differs |
| Properties.DebugSkip | synacor.py:325-326 | in debug mode a non-zero skip counter counts down and the step otherwise acts as outside debug mode |
| Properties.DebugPrompt | synacor.py:325-328 | in debug mode with skip zero and no watch, the step takes one operator line (or stops with none left) and otherwise acts as outside debug mode |
| Properties.CallStep | synacor.py:213-216 | outside debug mode `call` pushes the address two words on and jumps to its operand's value |
| Properties.RetStep | synacor.py:218-220 | outside debug mode `ret` pops the top of the stack and jumps to what `read` makes of it |
| Properties.CallThenRet | synacor.py:213-220 | `call` then `ret` at the target resumes two words after the `call` with the stack as before |
| Properties.CallAtEndReturnsToR1 | synacor.py:213-220 | a `call` at 32766 pushes 32768, and the `ret` then jumps to r1's value |
| Properties.ConsumeSkipsHooks | synacor.py:233-236 | with `%`s and then a character `c` buffered, `in_` delivers `c`, keeps the rest, reads no line, and reports the hook exactly when a `%` was skipped |
| Properties.ConsumeRefills | synacor.py:229-233 | with an empty buffer, exactly one operator line is taken and expanded before consuming |
| Properties.InDeliversOneCharacter | synacor.py:227-239 | with "A\n" buffered `in` writes 65 and leaves "\n"; with "%A\n" it also sets register 8 to 25734 |
| Properties.OutAppends | synacor.py:222-225 | `out a` appends `read(a)` to the output and changes nothing else |
| Properties.ContinueRun | synacor.py:330-335 | outside debug mode, a continuing instruction's run is the handler's state with pc moved past the operands, followed by the rest of the run |
| Properties.HaltRun | synacor.py:330-333 | outside debug mode a run at `halt` stops at once with the machine unchanged |
| Properties.ScenarioOutThenHalt | synacor.py:297-338 | `out 65; halt` prints exactly 65 and halts |
| Properties.ScenarioPopEmpty | synacor.py:297-338 | `pop r1` on an empty stack stops every run with a stack underflow before anything is printed |
| Properties.LoadedWords | synacor.py:90-95 | each complete byte pair becomes one word whose low and high bytes are the pair; other words are kept |
| Properties.PatchFrame | synacor.py:340-345 | the patch changes no address except 5485 and 5487-5490 |
| Properties.NoopRun | synacor.py:241-243 | outside debug mode `noop` only advances pc by one |
| Properties.PatchedCodeSetsRegister8 | synacor.py:340-345 | with a `set` at 5486, the patched code sets register 8 to 25734 in three steps and changes nothing else but the pc |
| Teleporter.Ack | teleporter.cpp:9-17 | every result of the recurrence is below 32768 |
| Teleporter.Reduced | teleporter.cpp:9-17 | the recurrence on reduced arguments stays below 32768 |
| Teleporter.ReducedOne | teleporter.cpp:9-17 | with first argument 1 the recurrence adds `param + 1` modulo 32768 |
| Teleporter.ReducedTwo | teleporter.cpp:9-17 | with first argument 2 the recurrence is `(b + 2) * param + b + 1` modulo 32768 |
| Teleporter.AckOne | teleporter.cpp:9-17 | `ack(1, b) = (param + 1 + b) mod 32768` |
| Teleporter.AckTwo | teleporter.cpp:9-17 | `ack(2, b) = ((b + 2) * param + b + 1) mod 32768` for every `b` |
| Teleporter.Memo.constructor | teleporter.cpp:6-7 | the memo starts empty and consistent |
| Teleporter.Memo.AckMemo | teleporter.cpp:9-17 | the memoised evaluation returns the recurrence's value; it keeps every table entry equal to the recurrence and the parameter unchanged; it only adds keys |
| Teleporter.Memo.Ackermann | teleporter.cpp:20-24 | resetting the parameter and the table makes the result `Ack(k, 4, 1)`, a function of `k` alone |
| Teleporter.FindParameter | teleporter.cpp:26-33 | returns the least `i` in [1, 32768) with `ackermann(i) == 6`, or none if there is no such `i` |

## Left out

- Console output: `out` appends the character code to an output sequence instead of printing (`synacor.py:224`). On an unknown opcode the five memory words printed before the fault is raised are not produced (`synacor.py:300-301`).
- Stderr tracing: the traces in `read`, `write` and `run` are not modelled (`synacor.py:108-109`, `122-123`, `322`).
- Operator input is a queue of lines given up front.
  - The debug prompt takes one line from it; the dot-commands that `get_input` runs in between are not modelled (`synacor.py:285-295`).
  - The commands themselves (`rs`, `n`, `w`, `d`) are separate methods of the class.
- Console- and file-only commands: `help`, `r` and `dis` (`write_dis`) print or write files.
- `disassemble` is a print-only scan.
- The script's `main` is not modelled.
- Argument counts from reflection: the arity of each handler is a fixed table (`Disassembly.Arity`), not read from the function objects.
- Walkthrough contents: the literal contents of the walkthrough table are not modelled. The table is a parameter, assumed acyclic.
- File reading: `load_program` takes the file's bytes as a parameter.
- Interpreter.VM.Step: requires the class invariant, so registers must hold words. A register made non-word by `rs` and a negative list index reached through it are not modelled past `SetRegister`.
- Interpreter.VM.Run: runs for at most `fuel` iterations; the Python loop has no bound, so `Running` means the budget ran out.
- Exceptions: they are modelled as a returned fault and the partial state at the point of raising. The Python exception types and messages are not.
- Teleporter.Ack: takes natural-number arguments. C++'s `int` overflow and truncating `%` on negative values do not arise from `ackermann(k)` with `k` in [1, 32768) and are not modelled.
- Teleporter.FindParameter: the concrete answer 25734 is not proved. It takes evaluating the recurrence for 25734 parameters.
- Progress printing and the deep recursion's stack use are not modelled.
