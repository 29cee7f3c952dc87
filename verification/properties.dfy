/** What the machine promises, proved about the reference semantics. */
module Properties {
  import opened Word
  import opened Walkthrough
  import opened Disassembly
  import opened Semantics

  // ---------------------------------------------------------------------
  // Handlers

  /** The three-operand handlers store the reduced result in the target
      register and touch nothing else; `eq` and `gt` store a bit; `mod` by
      zero raises before anything is written. */
  lemma BinaryStores(m: Machine, t: Table, op: Opcode, args: seq<nat>)
    requires WellFormed(m) && Ranked(t) && IsBinary(op)
    requires |args| == 3 && m.pc + 3 < MOD
    requires MOD <= args[0] < MOD + REGISTERS
    requires args[1] < MOD + REGISTERS && args[2] < MOD + REGISTERS
    ensures var x, y := ReadOperand(m.registers, args[1]).value, ReadOperand(m.registers, args[2]).value;
            var r := Exec(m, t, op, args);
            var k := args[0] - MOD;
            && (op == MODULO && y == 0 ==> r == (m, Raise(DivisionByZero)))
            && (op != MODULO || y != 0 ==>
                  r.1 == Continue && r.0 == m.(registers := r.0.registers)
                  && r.0.registers == m.registers[k := r.0.registers[k]])
            && (op == EQ ==> r.0.registers[k] == (if x == y then 1 else 0))
            && (op == GT ==> r.0.registers[k] == (if x > y then 1 else 0))
            && (op == ADD ==> r.0.registers[k] == (x + y) % MOD)
            && (op == MULT ==> r.0.registers[k] == (x * y) % MOD)
            && (op == MODULO && y != 0 ==> r.0.registers[k] == x % y)
  {
    var x, y := ReadOperand(m.registers, args[1]).value, ReadOperand(m.registers, args[2]).value;
    var r := Exec(m, t, op, args);
    if op == MODULO && y == 0 {
      assert r == (m, Raise(DivisionByZero));
    } else {
      var v := BinaryValue(op, x, y).value;
      assert r == Store(m, args[0], v);
      assert r.0.registers == m.registers[args[0] - MOD := v % MOD];
      if op == MODULO {
        assert 0 <= v < MOD;
      }
    }
  }

  /** `and a b c` stores `read(b) & read(c)` in register `a` and changes
      nothing else. */
  lemma AndStores(m: Machine, t: Table, args: seq<nat>)
    requires WellFormed(m) && Ranked(t)
    requires |args| == 3 && m.pc + 3 < MOD
    requires MOD <= args[0] < MOD + REGISTERS
    requires args[1] < MOD + REGISTERS && args[2] < MOD + REGISTERS
    ensures var x, y := ReadOperand(m.registers, args[1]).value, ReadOperand(m.registers, args[2]).value;
            Exec(m, t, AND, args) == (m.(registers := m.registers[args[0] - MOD := And(x, y)]), Continue)
  {
    var x, y := ReadOperand(m.registers, args[1]).value, ReadOperand(m.registers, args[2]).value;
    BinaryExec(m, t, AND, args);
    assert BinaryValue(AND, x, y) == Ok(And(x, y));
    StoreWord(m, args[0], And(x, y));
  }

  /** `or a b c` stores `read(b) | read(c)` in register `a` and changes
      nothing else. */
  lemma OrStores(m: Machine, t: Table, args: seq<nat>)
    requires WellFormed(m) && Ranked(t)
    requires |args| == 3 && m.pc + 3 < MOD
    requires MOD <= args[0] < MOD + REGISTERS
    requires args[1] < MOD + REGISTERS && args[2] < MOD + REGISTERS
    ensures var x, y := ReadOperand(m.registers, args[1]).value, ReadOperand(m.registers, args[2]).value;
            Exec(m, t, OR, args) == (m.(registers := m.registers[args[0] - MOD := Or(x, y)]), Continue)
  {
    var x, y := ReadOperand(m.registers, args[1]).value, ReadOperand(m.registers, args[2]).value;
    BinaryExec(m, t, OR, args);
    assert BinaryValue(OR, x, y) == Ok(Or(x, y));
    StoreWord(m, args[0], Or(x, y));
  }

  /** `write` of a word to a register stores it unreduced. */
  lemma StoreWord(m: Machine, addr: int, v: int)
    requires WellFormed(m) && MOD <= addr < MOD + REGISTERS && IsWord(v)
    ensures Store(m, addr, v) == (m.(registers := m.registers[addr - MOD := v]), Continue)
  {
    assert v % MOD == v;
  }

  /** A three-operand handler whose value is defined passes it to `write`. */
  lemma BinaryExec(m: Machine, t: Table, op: Opcode, args: seq<nat>)
    requires WellFormed(m) && Ranked(t) && IsBinary(op)
    requires |args| == 3 && m.pc + 3 < MOD
    requires args[1] < MOD + REGISTERS && args[2] < MOD + REGISTERS
    ensures var v := BinaryValue(op, ReadOperand(m.registers, args[1]).value, ReadOperand(m.registers, args[2]).value);
            v.Ok? ==> Exec(m, t, op, args) == Store(m, args[0], v.value)
  {
  }

  /** `set a b` stores `read(b)` in register `a` and changes nothing else. */
  lemma SetStores(m: Machine, t: Table, a: nat, b: nat)
    requires WellFormed(m) && Ranked(t) && m.pc + 2 < MOD
    requires MOD <= a < MOD + REGISTERS && b < MOD + REGISTERS
    ensures var y := ReadOperand(m.registers, b).value;
            Exec(m, t, SET, [a, b]) == (m.(registers := m.registers[a - MOD := y]), Continue)
  {
  }

  /** `jmp a` moves the pc to `read(a)` and changes nothing else. */
  lemma JmpJumps(m: Machine, t: Table, a: nat)
    requires WellFormed(m) && Ranked(t) && m.pc + 1 < MOD
    requires a < MOD + REGISTERS
    ensures Exec(m, t, JMP, [a]) == (m.(pc := ReadOperand(m.registers, a).value), Jump)
  {
  }

  /** `jt a b` jumps to `read(b)` exactly when `read(a)` is non-zero, `jf a b`
      exactly when it is zero; otherwise nothing changes. */
  lemma CondJumps(m: Machine, t: Table, a: nat, b: nat)
    requires WellFormed(m) && Ranked(t) && m.pc + 2 < MOD
    requires a < MOD + REGISTERS && b < MOD + REGISTERS
    ensures var x, y := ReadOperand(m.registers, a).value, ReadOperand(m.registers, b).value;
            && Exec(m, t, JT, [a, b]) == (if x != 0 then (m.(pc := y), Jump) else (m, Continue))
            && Exec(m, t, JF, [a, b]) == (if x == 0 then (m.(pc := y), Jump) else (m, Continue))
  {
  }

  /** `rmem a b` stores the memory word at `read(b)`, reduced by `write`, in
      register `a`; `wmem a b` stores `read(b)` at address `read(a)`. */
  lemma MemoryMoves(m: Machine, t: Table, a: nat, b: nat)
    requires WellFormed(m) && Ranked(t) && m.pc + 2 < MOD
    requires a < MOD + REGISTERS && b < MOD + REGISTERS
    ensures var x, y := ReadOperand(m.registers, a).value, ReadOperand(m.registers, b).value;
            && (MOD <= a ==>
                  Exec(m, t, RMEM, [a, b]) == (m.(registers := m.registers[a - MOD := m.memory[y] % MOD]), Continue))
            && Exec(m, t, WMEM, [a, b]) == (m.(memory := m.memory[x := y]), Continue)
  {
  }

  /** `not r r` stores the 15-bit complement, and a second `not r r` restores
      the machine. */
  lemma NotTwiceRestores(m: Machine, t: Table, k: nat)
    requires WellFormed(m) && Ranked(t) && k < REGISTERS && m.pc + 2 < MOD
    ensures var r := Exec(m, t, NOT, [MOD + k, MOD + k]);
            && r.1 == Continue && r.0.registers[k] == MOD - 1 - m.registers[k]
            && Exec(r.0, t, NOT, [MOD + k, MOD + k]) == (m, Continue)
  {
    var x := m.registers[k];
    ComplementIsFlip(x);
    var m1 := Exec(m, t, NOT, [MOD + k, MOD + k]).0;
    assert m1.registers == m.registers[k := MOD - 1 - x];
    assert m1.registers[k := x] == m.registers;
  }

  /** `push b` then `pop a` moves `read(b)` into register `a` and leaves the
      stack as it was. */
  lemma PushThenPop(m: Machine, t: Table, a: nat, b: nat)
    requires WellFormed(m) && Ranked(t) && m.pc + 1 < MOD
    requires MOD <= a < MOD + REGISTERS && b < MOD + REGISTERS
    ensures var x := ReadOperand(m.registers, b).value;
            var (m1, s1) := Exec(m, t, PUSH, [b]);
            var (m2, s2) := Exec(m1, t, POP, [a]);
            && s1 == Continue && m1.stack == m.stack + [x]
            && s2 == Continue && m2 == m.(registers := m.registers[a - MOD := x])
  {
    var x := ReadOperand(m.registers, b).value;
    var m1 := Exec(m, t, PUSH, [b]).0;
    assert m1.stack[..|m1.stack| - 1] == m.stack;
  }

  /** `pop` and `ret` on an empty stack raise and change nothing. */
  lemma EmptyStackRaises(m: Machine, t: Table, a: nat)
    requires WellFormed(m) && Ranked(t) && m.pc + 1 < MOD && m.stack == []
    ensures Exec(m, t, POP, [a]) == (m, Raise(StackUnderflow))
    ensures Exec(m, t, RET, []) == (m, Raise(StackUnderflow))
  {
  }

  /** `out a` appends `read(a)` to the output and changes nothing else. */
  lemma OutAppends(m: Machine, t: Table, a: nat)
    requires WellFormed(m) && Ranked(t) && m.pc + 1 < MOD && a < MOD + REGISTERS
    ensures Exec(m, t, OUT, [a]) == (m.(output := m.output + [ReadOperand(m.registers, a).value]), Continue)
  {
  }

  // ---------------------------------------------------------------------
  // The run loop

  /** The instruction at pc can be dispatched: a known opcode whose operands
      lie within memory. */
  predicate Fetchable(m: Machine)
    requires WellFormed(m)
  {
    m.pc < MOD && m.memory[m.pc] < 22 && m.pc + Arity(m.memory[m.pc]) < MOD
  }

  /** The faults the fetch itself raises, before any handler runs. */
  lemma StepFetchFaults(m: Machine, d: Session, t: Table)
    requires WellFormed(m) && Ranked(t) && m.pc < MOD
    ensures m.memory[m.pc] >= 22 ==> Step(m, d, t) == (m, d, Faulted(UnknownOpcode(m.memory[m.pc])))
    ensures m.memory[m.pc] < 22 && m.pc + Arity(m.memory[m.pc]) >= MOD ==>
              Step(m, d, t) == (m, d, Faulted(TruncatedInstruction))
  {
  }

  /** Outside debug mode, a step runs the handler and then advances the pc by
      arity + 1 after `CNT`, keeps the handler's pc and records it as a jump
      target after `JMP`, and stops after `HLT`. */
  lemma StepDispatch(m: Machine, d: Session, t: Table)
    requires WellFormed(m) && Ranked(t) && Fetchable(m) && !d.debug
    ensures var op := m.memory[m.pc];
            var (m1, s) := Exec(m, t, op, Operands(m, op));
            var (m2, d2, o) := Step(m, d, t);
            && (s == Continue ==> o == Running && m2 == m1.(pc := m.pc + Arity(op) + 1) && d2.jumps == d.jumps)
            && (s == Jump ==> o == Running && m2 == m1 && d2.jumps == d.jumps + {m1.pc})
            && (s == Halt ==> o == Halted && m2 == m1)
            && (s.Raise? ==> o == Faulted(s.fault) && m2 == m1)
            && d2.skip == d.skip
  {
  }

  /** Every fetch caches the instruction's rendering at its address, and
      clears the watch set exactly when an operand references a watched
      register. */
  lemma StepBookkeeping(m: Machine, d: Session, t: Table)
    requires WellFormed(m) && Ranked(t) && Fetchable(m)
    ensures var op := m.memory[m.pc];
            var args := Operands(m, op);
            var r := Step(m, d, t);
            && r.1.dis == d.dis[m.pc := Render(m.pc, op, args)]
            && (r.1.watch == {} <==> d.watch == {} || exists i :: 0 <= i < |args| && args[i] - MOD in d.watch)
            && (r.1.watch != {} ==> r.1.watch == d.watch)
  {
    var op := m.memory[m.pc];
    var args := Operands(m, op);
    var line := Render(m.pc, op, args);
    var d1 := d.(watch := if WatchHit(d.watch, args) then {} else d.watch, dis := d.dis[m.pc := line]);
    var r := Step(m, d, t);
    if d.debug && m.pc in d.dis && d.dis[m.pc] != "" && d.dis[m.pc] != line {
      assert r.1 == d1;
    } else if d.debug && d1.skip == 0 && d1.watch == {} && m.console == [] {
      assert r.1 == d1;
    } else {
      assert r.1.dis == d1.dis && r.1.watch == d1.watch;
    }
  }

  /** In debug mode, with an earlier rendering of `(op0, args0)` cached at pc,
      the step raises "instruction changed" exactly when the code there is no
      longer `(op0, args0)`. Outside debug mode it never does. */
  lemma DebugDetectsChangedCode(m: Machine, d: Session, t: Table, op0: Opcode, args0: seq<nat>)
    requires WellFormed(m) && Ranked(t) && Fetchable(m)
    requires m.pc in d.dis && d.dis[m.pc] == Render(m.pc, op0, args0)
    ensures var op := m.memory[m.pc];
            Step(m, d, t).2 == Faulted(InstructionChanged(m.pc)) <==>
              d.debug && (op0 != op || args0 != Operands(m, op))
  {
    var op := m.memory[m.pc];
    RenderInjective(m.pc, op0, args0, op, Operands(m, op));
  }

  /** The handler's effect on the machine and the outcome do not depend on
      the debugger's state. */
  lemma AdvanceIgnoresSession(m: Machine, d: Session, d': Session, t: Table, op: Opcode, args: seq<nat>)
    requires WellFormed(m) && Ranked(t)
    requires |args| == Arity(op) && m.pc + |args| < MOD
    ensures var r, r' := Advance(m, d, t, op, args), Advance(m, d', t, op, args);
            r.0 == r'.0 && r.2 == r'.2
  {
  }

  /** In debug mode a non-zero skip counter counts down instead of prompting:
      on code that is new or unchanged since it was last rendered, the step
      then does what it does outside debug mode. */
  lemma DebugSkip(m: Machine, d: Session, t: Table)
    requires WellFormed(m) && Ranked(t) && Fetchable(m) && d.debug && d.skip != 0
    requires m.pc !in d.dis || d.dis[m.pc] == Render(m.pc, m.memory[m.pc], Operands(m, m.memory[m.pc]))
    ensures var r, r' := Step(m, d, t), Step(m, d.(debug := false), t);
            r.0 == r'.0 && r.2 == r'.2 && r.1.skip == d.skip - 1
  {
    var op := m.memory[m.pc];
    var args := Operands(m, op);
    var d1 := d.(watch := if WatchHit(d.watch, args) then {} else d.watch,
                 dis := d.dis[m.pc := Render(m.pc, op, args)]);
    assert Step(m, d, t) == Advance(m, d1.(skip := d.skip - 1), t, op, args);
    assert Step(m, d.(debug := false), t) == Advance(m, d1.(debug := false), t, op, args);
    AdvanceIgnoresSession(m, d1.(skip := d.skip - 1), d1.(debug := false), t, op, args);
  }

  /** In debug mode with the skip counter at zero and no watchpoint armed
      (after the fetch), the prompt takes one operator line before the
      handler runs, and the run stops when there is none. */
  lemma DebugPrompt(m: Machine, d: Session, t: Table)
    requires WellFormed(m) && Ranked(t) && Fetchable(m) && d.debug && d.skip == 0
    requires m.pc !in d.dis || d.dis[m.pc] == Render(m.pc, m.memory[m.pc], Operands(m, m.memory[m.pc]))
    ensures var r := Step(m, d, t);
            && (r.1.watch == {} && m.console == [] ==> r.2 == Faulted(InputExhausted) && r.0 == m)
            && (r.1.watch == {} && m.console != [] ==>
                  var r' := Step(m.(console := m.console[1..]), d.(debug := false), t);
                  r.0 == r'.0 && r.2 == r'.2)
  {
    var op := m.memory[m.pc];
    var args := Operands(m, op);
    var d1 := d.(watch := if WatchHit(d.watch, args) then {} else d.watch,
                 dis := d.dis[m.pc := Render(m.pc, op, args)]);
    var r := Step(m, d, t);
    assert r == Cycle(m, d, t, op);
    if d1.watch == {} && m.console == [] {
      assert r == (m, d1, Faulted(InputExhausted));
    } else if d1.watch == {} {
      var m' := m.(console := m.console[1..]);
      CycleProceeds(m, d, t, op, d1, m', d1);
      assert Operands(m', op) == args;
      assert Step(m', d.(debug := false), t) == Cycle(m', d.(debug := false), t, op);
      CycleProceeds(m', d.(debug := false), t, op, d1.(debug := false), m', d1.(debug := false));
      AdvanceIgnoresSession(m', d1, d1.(debug := false), t, op, args);
    } else {
      assert r.1.watch == d1.watch;
    }
  }

  /** Outside debug mode, a `call` step pushes the address of the next
      instruction (32768 for a `call` at 32766) and jumps to its operand. */
  lemma CallStep(m: Machine, d: Session, t: Table)
    requires WellFormed(m) && Ranked(t) && !d.debug
    requires m.pc + 1 < MOD && m.memory[m.pc] == CALL
    requires m.memory[m.pc + 1] < MOD + REGISTERS
    ensures var r := Step(m, d, t);
            && r.2 == Running && !r.1.debug
            && r.0 == m.(stack := m.stack + [m.pc + 2], pc := ReadOperand(m.registers, m.memory[m.pc + 1]).value)
  {
    var a := m.memory[m.pc + 1];
    assert Operands(m, CALL) == [a];
    var m1 := m.(stack := m.stack + [m.pc + 2], pc := ReadOperand(m.registers, a).value);
    assert Exec(m, t, CALL, [a]) == (m1, Jump);
    StepDispatch(m, d, t);
  }

  /** Outside debug mode, a `ret` step pops the top of a non-empty stack and
      jumps to what `read` makes of it. */
  lemma RetStep(m: Machine, d: Session, t: Table)
    requires WellFormed(m) && Ranked(t) && !d.debug
    requires m.pc < MOD && m.memory[m.pc] == RET
    requires m.stack != [] && m.stack[|m.stack| - 1] < MOD + REGISTERS
    ensures var r := Step(m, d, t);
            && r.2 == Running
            && r.0 == m.(stack := m.stack[..|m.stack| - 1],
                         pc := ReadOperand(m.registers, m.stack[|m.stack| - 1]).value)
  {
    assert Operands(m, RET) == [];
    var top := m.stack[|m.stack| - 1];
    var m1 := m.(stack := m.stack[..|m.stack| - 1], pc := ReadOperand(m.registers, top).value);
    assert Exec(m, t, RET, []) == (m1, Jump);
    StepDispatch(m, d, t);
  }

  /** Issuing `call` and then executing a `ret` at the target returns to the
      word after the `call`, with the stack as it was. */
  lemma CallThenRet(m: Machine, d: Session, t: Table)
    requires WellFormed(m) && Ranked(t) && !d.debug
    requires m.pc + 2 < MOD && m.memory[m.pc] == CALL
    requires m.memory[m.pc + 1] < MOD + REGISTERS
    requires m.memory[ReadOperand(m.registers, m.memory[m.pc + 1]).value] == RET
    ensures var (m1, d1, o1) := Step(m, d, t);
            var (m2, d2, o2) := Step(m1, d1, t);
            && o1 == Running && m1.stack == m.stack + [m.pc + 2]
            && m1.pc == ReadOperand(m.registers, m.memory[m.pc + 1]).value
            && o2 == Running && m2 == m.(pc := m.pc + 2)
  {
    CallStep(m, d, t);
    var r1 := Step(m, d, t);
    assert r1.0.stack[..|r1.0.stack| - 1] == m.stack;
    RetStep(r1.0, r1.1, t);
  }

  /** `ret` sends the popped address through `read`: the address 32768 that a
      `call` at 32766 pushes is taken as a reference to register r1, so control
      goes to r1's value rather than off the end of memory. */
  lemma CallAtEndReturnsToR1(m: Machine, d: Session, t: Table)
    requires WellFormed(m) && Ranked(t) && !d.debug
    requires m.pc == MOD - 2 && m.memory[m.pc] == CALL
    requires m.memory[m.pc + 1] < MOD + REGISTERS
    requires m.memory[ReadOperand(m.registers, m.memory[m.pc + 1]).value] == RET
    ensures var (m1, d1, o1) := Step(m, d, t);
            var (m2, d2, o2) := Step(m1, d1, t);
            && m1.stack == m.stack + [MOD]
            && o2 == Running && m2.pc == m.registers[0] && m2.pc != MOD
  {
    CallStep(m, d, t);
    var r1 := Step(m, d, t);
    assert r1.0.stack[..|r1.0.stack| - 1] == m.stack;
    RetStep(r1.0, r1.1, t);
  }

  // ---------------------------------------------------------------------
  // The input channel

  predicate AllHooks(s: string) {
    forall i :: 0 <= i < |s| ==> s[i] == HOOK
  }

  /** While the buffer holds a character other than `%`, no operator line is
      read: `in_` delivers the first such character, keeps everything after
      it, and reports a hook exactly when `%` characters preceded it. */
  lemma {:induction false} ConsumeSkipsHooks(t: Table, hooks: string, c: char, rest: string, console: seq<string>)
    requires Ranked(t) && AllHooks(hooks) && c != HOOK
    ensures Consume(t, hooks + [c] + rest, console) == Consumed(Ok(c), rest, console, hooks != [])
    decreases |hooks|
  {
    var s := hooks + [c] + rest;
    if hooks == [] {
      assert s == [c] + rest;
    } else {
      assert s[0] == HOOK && s[1..] == hooks[1..] + [c] + rest;
      ConsumeSkipsHooks(t, hooks[1..], c, rest, console);
    }
  }

  /** With an empty buffer, `in_` takes exactly one operator line, expands it
      through the table and feeds the lines (each with a newline) before
      consuming. */
  lemma ConsumeRefills(t: Table, line: string, console: seq<string>)
    requires Ranked(t)
    ensures var fed := Feed(Expand(t, line));
            Consume(t, [], [line] + console) ==
              if fed == [] then Consumed(Err(EmptyInput), [], console, false)
              else Consume(t, fed, console)
  {
    assert ([line] + console)[1..] == console;
  }

  /** `in` with `"A\n"` buffered delivers `A` (65) and leaves `"\n"`; a `%`
      in front of it is skipped and sets register 8 to 25734. */
  lemma InDeliversOneCharacter(m: Machine, t: Table, k: nat)
    requires WellFormed(m) && Ranked(t) && k < REGISTERS && m.pc + 1 < MOD
    ensures var r := Exec(m.(buffer := "A\n"), t, IN, [MOD + k]);
            r.1 == Continue && r.0 == m.(registers := m.registers[k := 65], buffer := "\n")
    ensures var r := Exec(m.(buffer := "%A\n"), t, IN, [MOD + k]);
            r.1 == Continue &&
            r.0 == m.(registers := m.registers[REGISTERS - 1 := HOOK_VALUE][k := 65], buffer := "\n")
  {
    ConsumeSkipsHooks(t, [], 'A', "\n", m.console);
    assert "A\n" == [] + ['A'] + "\n";
    ConsumeSkipsHooks(t, "%", 'A', "\n", m.console);
    assert "%A\n" == "%" + ['A'] + "\n";
  }

  // ---------------------------------------------------------------------
  // Whole runs

  /** A fresh machine with `program` at address 0 and nothing else set. */
  function Boot(program: seq<nat>, console: seq<string>): (m: Machine)
    requires |program| <= MOD
    ensures WellFormed(m) && m.memory[..|program|] == program
  {
    Machine(seq(MOD, i requires 0 <= i < MOD => if i < |program| then program[i] else 0),
            seq(REGISTERS, _ => 0), [], 0, "", console, [])
  }

  /** A debugger session with nothing recorded and tracing off. */
  function Quiet(): Session {
    Session(false, 0, {}, map[], {})
  }

  /** Outside debug mode, a run whose next handler continues is that
      handler's effect with the pc moved past the operands, followed by the
      rest of the run from the state it returns. */
  lemma ContinueRun(m: Machine, d: Session, t: Table, fuel: nat) returns (m': Machine, d': Session)
    requires WellFormed(m) && Ranked(t) && Fetchable(m) && !d.debug && fuel > 0
    requires Exec(m, t, m.memory[m.pc], Operands(m, m.memory[m.pc])).1 == Continue
    ensures var op := m.memory[m.pc];
            m' == Exec(m, t, op, Operands(m, op)).0.(pc := m.pc + Arity(op) + 1)
    ensures WellFormed(m') && !d'.debug
    ensures Run(m, d, t, fuel) == Run(m', d', t, Fewer(fuel))
  {
    StepDispatch(m, d, t);
    var r := Step(m, d, t);
    RunUnfold(m, d, t, fuel, r);
    m', d' := r.0, r.1;
  }

  /** Outside debug mode, a run that reaches `halt` stops there with the
      machine unchanged. */
  lemma HaltRun(m: Machine, d: Session, t: Table, fuel: nat)
    requires WellFormed(m) && Ranked(t) && !d.debug && fuel > 0
    requires m.pc < MOD && m.memory[m.pc] == HALT
    ensures Run(m, d, t, fuel).2 == Halted && Run(m, d, t, fuel).0 == m
  {
    assert Operands(m, HALT) == [];
    StepDispatch(m, d, t);
    RunUnfold(m, d, t, fuel, Step(m, d, t));
  }

  /** `out 'A'; halt` prints exactly "A" and halts. */
  lemma ScenarioOutThenHalt(t: Table)
    requires Ranked(t)
    ensures var r := Run(Boot([OUT, 65, HALT], []), Quiet(), t, 2);
            r.2 == Halted && r.0.output == [65]
  {
    var m0 := Boot([OUT, 65, HALT], []);
    assert m0.memory[0] == OUT && Operands(m0, OUT) == [65];
    OutAppends(m0, t, 65);
    var m1, d1 := ContinueRun(m0, Quiet(), t, 2);
    assert m1 == m0.(output := [65], pc := 2);
    HaltRun(m1, d1, t, 1);
  }

  /** `pop r1` on an empty stack ends the run with a stack underflow before
      the following `out` can print anything. */
  lemma ScenarioPopEmpty(t: Table, fuel: nat)
    requires Ranked(t) && fuel > 0
    ensures var r := Run(Boot([POP, MOD, OUT, 65, HALT], []), Quiet(), t, fuel);
            r.2 == Faulted(StackUnderflow) && r.0.output == []
  {
    var m0 := Boot([POP, MOD, OUT, 65, HALT], []);
    assert m0.memory[0] == POP && Operands(m0, POP) == [MOD];
  }

  // ---------------------------------------------------------------------
  // Loading and patching

  /** Loading stores each complete byte pair, low byte first, as one word,
      and reading the two bytes back out of the word gives the pair. */
  lemma LoadedWords(mem: seq<nat>, program: seq<Byte>, k: nat)
    requires |mem| == MOD && k < MOD
    ensures var w := Loaded(mem, program)[k];
            && (2 * k + 1 < |program| ==> w % 256 == program[2 * k] && w / 256 == program[2 * k + 1])
            && (2 * k + 1 >= |program| ==> w == mem[k])
  {
  }

  /** The patch changes only the five words it names. */
  lemma PatchFrame(mem: seq<nat>, k: nat)
    requires |mem| == MOD && k < MOD
    requires k != 5485 && !(5487 <= k <= 5490)
    ensures Patch(mem)[k] == mem[k]
  {
  }

  /** Outside debug mode a `noop` only moves the pc to the next word. */
  lemma NoopRun(m: Machine, d: Session, t: Table, fuel: nat)
    requires WellFormed(m) && Ranked(t) && !d.debug && fuel > 0
    requires m.pc < MOD && m.memory[m.pc] == NOOP
    ensures var r := Step(m, d, t);
            && r.2 == Running && r.0 == m.(pc := m.pc + 1) && !r.1.debug
            && Run(m, d, t, fuel) == Run(r.0, r.1, t, Fewer(fuel))
  {
    assert Operands(m, NOOP) == [];
    StepDispatch(m, d, t);
    RunUnfold(m, d, t, fuel, Step(m, d, t));
  }

  /** When the patched code is reached at 5486 with a `set` there, three
      steps set register 8 to the hook value (`set r8 25734`, then two
      `noop`s) and change nothing else but the pc. */
  lemma PatchedCodeSetsRegister8(m: Machine, d: Session, t: Table, mem: seq<nat>)
    requires WellFormed(m) && Ranked(t) && !d.debug
    requires |mem| == MOD && mem[5486] == SET
    requires m.memory == Patch(mem) && m.pc == 5486
    ensures var r := Run(m, d, t, 3);
            r.2 == Running && r.0 == m.(registers := m.registers[7 := HOOK_VALUE], pc := 5491)
  {
    assert m.memory[m.pc] == SET;
    assert Operands(m, SET) == m.memory[5487..5489] == [MOD + 7, HOOK_VALUE];
    var r1 := Step(m, d, t);
    StepDispatch(m, d, t);
    RunUnfold(m, d, t, 3, r1);
    var m1 := m.(registers := m.registers[7 := HOOK_VALUE], pc := 5489);
    assert r1.2 == Running && r1.0 == m1;
    NoopRun(m1, r1.1, t, 2);
    var r2 := Step(m1, r1.1, t);
    NoopRun(r2.0, r2.1, t, 1);
  }
}
