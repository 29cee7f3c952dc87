/** The `VM` object: memory and registers as arrays updated in place, the
    stack, pc, input buffer and debugger state as fields. Every handler and
    loop method is proved to do what the reference semantics (module
    Semantics) says; the debugger commands and the bookkeeping helpers
    (`SetRegister`, `SetSkip`, `SetWatch`, `ToggleDebug`, `Pause`, `Record`,
    `RenderLine`) state their effect on the fields directly.
 */
module Interpreter {
  import opened Word
  import opened Walkthrough
  import opened Disassembly
  import opened Semantics

  class VM {
    /** The walkthrough table the input channel expands operator lines with. */
    const aps: Table
    const memory: array<nat>
    const registers: array<int>
    var stack: seq<nat>
    var pc: nat
    var inputBuffer: string
    /** The lines the operator will type, in order. */
    var console: seq<string>
    /** Character codes printed by `out`. */
    var output: seq<int>
    var debug: bool
    var skip: int
    var watch: set<int>
    var dis: map<nat, string>
    var jumpDestinations: set<nat>

    ghost predicate Valid()
      reads this, memory, registers
    {
      && memory.Length == MOD
      && registers.Length == REGISTERS
      && Ranked(aps)
      && WellFormed(State())
    }

    /** The machine state this object holds. */
    function State(): Machine
      reads this, memory, registers
    {
      Machine(memory[..], registers[..], stack, pc, inputBuffer, console, output)
    }

    /** The debugger state this object holds. */
    function Debugger(): Session
      reads this
    {
      Session(debug, skip, watch, dis, jumpDestinations)
    }

    constructor (aps: Table, console: seq<string>)
      requires Ranked(aps)
      ensures Valid() && fresh(memory) && fresh(registers)
      ensures State() == Machine(seq(MOD, _ => 0), seq(REGISTERS, _ => 0), [], 0, "", console, [])
      ensures Debugger() == Session(false, 0, {}, map[], {})
    {
      this.aps := aps;
      memory := new nat[MOD](_ => 0);
      registers := new int[REGISTERS](_ => 0);
      stack, pc, inputBuffer := [], 0, "";
      this.console, output := console, [];
      debug, skip, watch, dis, jumpDestinations := false, 0, {}, map[], {};
      new;
      assert memory[..] == seq(MOD, _ => 0);
      assert registers[..] == seq(REGISTERS, _ => 0);
    }

    // -------------------------------------------------------------------
    // Loading, patching, input

    /** `load_program` on the bytes of the program file. */
    method LoadProgram(program: seq<Byte>) returns (ok: bool)
      requires Valid()
      modifies memory
      ensures Valid()
      ensures ok <==> |program| % 2 == 0 && |program| / 2 <= MOD
      ensures memory[..] == Loaded(old(memory[..]), program)
    {
      var i := 0;
      while i < |program|
        invariant i % 2 == 0 && i <= |program| && i / 2 <= MOD
        invariant Valid()
        invariant forall k :: 0 <= k < MOD ==>
          memory[k] == if k < i / 2 then LittleEndian(program[2 * k], program[2 * k + 1]) else old(memory[k])
      {
        if i + 1 >= |program| {
          // `low, high = program[i:i+2]` has a single byte to unpack
          ok := false;
          assert memory[..] == Loaded(old(memory[..]), program);
          return;
        }
        if i / 2 >= MOD {
          // the assignment to `memory[i >> 1]` is out of range
          ok := false;
          assert memory[..] == Loaded(old(memory[..]), program);
          return;
        }
        memory[i / 2] := LittleEndian(program[i], program[i + 1]);
        i := i + 2;
      }
      ok := true;
      assert memory[..] == Loaded(old(memory[..]), program);
    }

    /** `modify`: the patch applied before the run. */
    method Modify()
      requires Valid()
      modifies memory
      ensures Valid()
      ensures memory[..] == Patch(old(memory[..]))
    {
      memory[5485] := 6;
      memory[5487] := MOD + 7;
      memory[5488] := HOOK_VALUE;
      memory[5489] := NOOP;
      memory[5490] := NOOP;
    }

    /** `send_input`: append a line and a newline to the input buffer. */
    method SendInput(line: string)
      requires Valid()
      modifies this
      ensures Valid() && Debugger() == old(Debugger())
      ensures State() == old(State()).(buffer := old(inputBuffer) + line + "\n")
    {
      inputBuffer := inputBuffer + line + "\n";
    }

    // -------------------------------------------------------------------
    // Operand resolution

    /** `read`. */
    method Read(v: int) returns (r: Result<int>)
      requires Valid()
      ensures r == ReadOperand(registers[..], v)
    {
      if v < MOD {
        return Ok(v);
      }
      var k := v - MOD;
      if k >= REGISTERS {
        return Err(InvalidOperand(v));
      }
      return Ok(registers[k]);
    }

    /** `write`, returning what the handler then signals. */
    method Write(addr: int, value: int) returns (s: Signal)
      requires Valid()
      modifies registers
      ensures Valid()
      ensures (State(), s) == Store(old(State()), addr, value)
    {
      if addr < MOD {
        return Raise(InvalidTarget(addr));
      }
      var k := addr - MOD;
      if k >= REGISTERS {
        return Raise(InvalidTarget(addr));
      }
      registers[k] := value % MOD;
      return Continue;
    }

    // -------------------------------------------------------------------
    // Opcode handlers

    method Set(a: nat, b: nat) returns (s: Signal)
      requires Valid() && pc + 2 < MOD
      modifies registers
      ensures Valid()
      ensures (State(), s) == Exec(old(State()), aps, SET, [a, b])
    {
      var x := Read(b);
      if x.Err? {
        return Raise(x.fault);
      }
      s := Write(a, x.value);
    }

    method Push(a: nat) returns (s: Signal)
      requires Valid() && pc + 1 < MOD
      modifies this
      ensures Valid() && Debugger() == old(Debugger())
      ensures (State(), s) == Exec(old(State()), aps, PUSH, [a])
    {
      var x := Read(a);
      if x.Err? {
        return Raise(x.fault);
      }
      stack := stack + [x.value];
      return Continue;
    }

    method Pop(a: nat) returns (s: Signal)
      requires Valid() && pc + 1 < MOD
      modifies this, registers
      ensures Valid() && Debugger() == old(Debugger())
      ensures (State(), s) == Exec(old(State()), aps, POP, [a])
    {
      if stack == [] {
        return Raise(StackUnderflow);
      }
      var top := stack[|stack| - 1];
      stack := stack[..|stack| - 1];
      s := Write(a, top);
    }

    /** `eq`, `gt`, `add`, `mult`, `mod`, `and` and `or`: read both sources,
        combine, write the target. */
    method Binary(op: Opcode, a: nat, b: nat, c: nat) returns (s: Signal)
      requires Valid() && IsBinary(op) && pc + 3 < MOD
      modifies registers
      ensures Valid()
      ensures (State(), s) == Exec(old(State()), aps, op, [a, b, c])
    {
      var x := Read(b);
      if x.Err? {
        return Raise(x.fault);
      }
      var y := Read(c);
      if y.Err? {
        return Raise(y.fault);
      }
      var v := BinaryValue(op, x.value, y.value);
      if v.Err? {
        return Raise(v.fault);
      }
      s := Write(a, v.value);
    }

    method Jmp(a: nat) returns (s: Signal)
      requires Valid()
      modifies this
      ensures Valid() && Debugger() == old(Debugger())
      ensures (State(), s) == JumpTo(old(State()), a)
    {
      var x := Read(a);
      if x.Err? {
        return Raise(x.fault);
      }
      pc := x.value;
      return Jump;
    }

    /** `jt` (`ifNonZero`) and `jf` (`!ifNonZero`). */
    method JumpIf(op: Opcode, a: nat, b: nat) returns (s: Signal)
      requires Valid() && (op == JT || op == JF) && pc + 2 < MOD
      modifies this
      ensures Valid() && Debugger() == old(Debugger())
      ensures (State(), s) == Exec(old(State()), aps, op, [a, b])
    {
      var x := Read(a);
      if x.Err? {
        return Raise(x.fault);
      }
      if (x.value != 0) == (op == JT) {
        s := Jmp(b);
      } else {
        s := Continue;
      }
    }

    method Not(a: nat, b: nat) returns (s: Signal)
      requires Valid() && pc + 2 < MOD
      modifies registers
      ensures Valid()
      ensures (State(), s) == Exec(old(State()), aps, NOT, [a, b])
    {
      var x := Read(b);
      if x.Err? {
        return Raise(x.fault);
      }
      s := Write(a, Complement(x.value));
    }

    method Rmem(a: nat, b: nat) returns (s: Signal)
      requires Valid() && pc + 2 < MOD
      modifies registers
      ensures Valid()
      ensures (State(), s) == Exec(old(State()), aps, RMEM, [a, b])
    {
      var x := Read(b);
      if x.Err? {
        return Raise(x.fault);
      }
      s := Write(a, memory[x.value]);
    }

    method Wmem(a: nat, b: nat) returns (s: Signal)
      requires Valid() && pc + 2 < MOD
      modifies memory
      ensures Valid()
      ensures (State(), s) == Exec(old(State()), aps, WMEM, [a, b])
    {
      var y := Read(b);
      if y.Err? {
        return Raise(y.fault);
      }
      var x := Read(a);
      if x.Err? {
        return Raise(x.fault);
      }
      memory[x.value] := y.value;
      return Continue;
    }

    method Call(a: nat) returns (s: Signal)
      requires Valid() && pc + 1 < MOD
      modifies this
      ensures Valid() && Debugger() == old(Debugger())
      ensures (State(), s) == Exec(old(State()), aps, CALL, [a])
    {
      stack := stack + [pc + 2];
      s := Jmp(a);
    }

    method Ret() returns (s: Signal)
      requires Valid() && pc < MOD
      modifies this
      ensures Valid() && Debugger() == old(Debugger())
      ensures (State(), s) == Exec(old(State()), aps, RET, [])
    {
      if stack == [] {
        return Raise(StackUnderflow);
      }
      var top := stack[|stack| - 1];
      stack := stack[..|stack| - 1];
      s := Jmp(top);
    }

    method Out(a: nat) returns (s: Signal)
      requires Valid() && pc + 1 < MOD
      modifies this
      ensures Valid() && Debugger() == old(Debugger())
      ensures (State(), s) == Exec(old(State()), aps, OUT, [a])
    {
      var x := Read(a);
      if x.Err? {
        return Raise(x.fault);
      }
      output := output + [x.value];
      return Continue;
    }

    /** `in_`'s refill: the next operator line, expanded, is sent line by line. */
    method Refill()
      requires Valid() && inputBuffer == [] && console != []
      modifies this
      ensures Valid() && Debugger() == old(Debugger())
      ensures State() == old(State()).(buffer := Feed(Expand(aps, old(console)[0])), console := old(console)[1..])
    {
      var lines := Expand(aps, console[0]);
      console := console[1..];
      ghost var before := State();
      for i := 0 to |lines|
        invariant Valid() && Debugger() == old(Debugger())
        invariant State() == before.(buffer := Feed(lines[..i]))
      {
        assert lines[..i + 1][..i] == lines[..i];
        SendInput(lines[i]);
      }
      assert lines[..|lines|] == lines;
    }

    /** `in_`: take one character from the input buffer, refilling it from
        the next operator line (expanded through `aps`) when it is empty; a
        `%` sets register 8 and is skipped. */
    method In(a: nat) returns (s: Signal)
      requires Valid() && pc + 1 < MOD
      modifies this, registers
      ensures Valid() && Debugger() == old(Debugger())
      ensures (State(), s) == Exec(old(State()), aps, IN, [a])
      decreases |console|, |inputBuffer|, 1
    {
      if inputBuffer == [] {
        if console == [] {
          return Raise(InputExhausted);
        }
        ghost var m0 := State();
        Refill();
        if inputBuffer == [] {
          return Raise(EmptyInput);
        }
        ExecInRefill(m0, aps, a);
      }
      s := Take(a);
    }

    /** The rest of `in_` once the buffer holds something: pop the first
        character, then either take the `%` hook and start `in_` again, or
        write the character's code. */
    method Take(a: nat) returns (s: Signal)
      requires Valid() && pc + 1 < MOD && inputBuffer != []
      modifies this, registers
      ensures Valid() && Debugger() == old(Debugger())
      ensures (State(), s) == Exec(old(State()), aps, IN, [a])
      decreases |console|, |inputBuffer|, 0
    {
      ghost var m1 := State();
      var c := inputBuffer[0];
      inputBuffer := inputBuffer[1..];
      if c == HOOK {
        registers[REGISTERS - 1] := HOOK_VALUE;
        assert registers[..] == m1.registers[REGISTERS - 1 := HOOK_VALUE];
        ExecInHook(m1, aps, a);
        s := In(a);
      } else {
        s := Write(a, c as int);
      }
    }

    /** Dispatch on the opcode to its handler (the `opcodes` table). */
    method Execute(op: Opcode, args: seq<nat>) returns (s: Signal)
      requires Valid() && |args| == Arity(op) && pc + |args| < MOD
      modifies this, memory, registers
      ensures Valid() && Debugger() == old(Debugger())
      ensures (State(), s) == Exec(old(State()), aps, op, args)
    {
      if op == HALT {
        s := Halt;
      } else if op == SET {
        s := Set(args[0], args[1]);
      } else if op == PUSH {
        s := Push(args[0]);
      } else if op == POP {
        s := Pop(args[0]);
      } else if IsBinary(op) {
        s := Binary(op, args[0], args[1], args[2]);
      } else if op == JMP {
        s := Jmp(args[0]);
      } else if op == JT || op == JF {
        s := JumpIf(op, args[0], args[1]);
      } else if op == NOT {
        s := Not(args[0], args[1]);
      } else if op == RMEM {
        s := Rmem(args[0], args[1]);
      } else if op == WMEM {
        s := Wmem(args[0], args[1]);
      } else if op == CALL {
        s := Call(args[0]);
      } else if op == RET {
        s := Ret();
      } else if op == OUT {
        s := Out(args[0]);
      } else if op == IN {
        s := In(args[0]);
      } else {
        s := Continue;
      }
    }

    // -------------------------------------------------------------------
    // The run loop

    /** The rendering `run` builds for the instruction at `pc`. */
    method RenderLine(op: Opcode, args: seq<nat>) returns (line: string)
      ensures line == Render(pc, op, args)
    {
      line := NatStr(pc) + "| " + Name(op);
      ghost var head := line;
      for i := 0 to |args|
        invariant line == head + OperandsStr(args[..i])
      {
        ghost var done := OperandsStr(args[..i]);
        var next := OperandStr(args[i]);
        assert args[..i + 1][..i] == args[..i];
        assert OperandsStr(args[..i + 1]) == done + " " + next;
        line := line + " " + next;
        assert line == head + (done + " " + next);
      }
      assert args[..|args|] == args;
    }

    /** Clear the watch set when an operand names a watched register, and
        cache the rendering. */
    method Record(args: seq<nat>, line: string)
      modifies this
      ensures State() == old(State())
      ensures Debugger() == old(Debugger()).(watch := if WatchHit(old(watch), args) then {} else old(watch),
                                             dis := old(dis)[pc := line])
    {
      var hit := false;
      for i := 0 to |args|
        invariant hit <==> exists j :: 0 <= j < i && args[j] - MOD in watch
      {
        if args[i] - MOD in watch {
          hit := true;
        }
      }
      if hit {
        watch := {};
      }
      dis := dis[pc := line];
    }

    /** The debug-mode pause: count down `skip`, or run freely while a watch
        is set, or else wait for the operator's next line. */
    method Pause() returns (ok: bool)
      requires Valid()
      modifies this
      ensures Valid()
      ensures ok <==> !(old(skip) == 0 && old(watch) == {} && old(console) == [])
      ensures !ok ==> State() == old(State()) && Debugger() == old(Debugger())
      ensures ok ==> (State(), Debugger()) == (if old(skip) != 0 then (old(State()), old(Debugger()).(skip := old(skip) - 1))
        else if old(watch) != {} then (old(State()), old(Debugger()))
        else (old(State()).(console := old(console)[1..]), old(Debugger())))
    {
      if skip != 0 {
        skip := skip - 1;
      } else if watch == {} {
        if console == [] {
          return false;
        }
        console := console[1..];
      }
      return true;
    }

    /** One iteration of `run`. */
    method Step() returns (o: Outcome)
      requires Valid()
      modifies this, memory, registers
      ensures Valid()
      ensures (State(), Debugger(), o) == Semantics.Step(old(State()), old(Debugger()), aps)
    {
      if pc >= memory.Length {
        return OffEnd;
      }
      var op := memory[pc];
      if op >= 22 {
        return Faulted(UnknownOpcode(op));
      }
      if pc + Arity(op) >= memory.Length {
        return Faulted(TruncatedInstruction);
      }
      o := Cycle(op);
    }

    /** The rest of an iteration: render and cache, the debug-mode checks and
        pause, then the handler. */
    method Cycle(op: Opcode) returns (o: Outcome)
      requires Valid() && pc + Arity(op) < MOD
      modifies this, memory, registers
      ensures Valid()
      ensures (State(), Debugger(), o) == Semantics.Cycle(old(State()), old(Debugger()), aps, op)
    {
      ghost var m, d := State(), Debugger();
      var args := memory[pc + 1 .. pc + 1 + Arity(op)];
      assert args == Operands(m, op);
      var line := RenderLine(op, args);
      var changed := pc in dis && dis[pc] != "" && dis[pc] != line;
      Record(args, line);
      ghost var d1 := Debugger();
      if debug {
        if changed {
          return Faulted(InstructionChanged(pc));
        }
        var ok := Pause();
        if !ok {
          return Faulted(InputExhausted);
        }
      }
      CycleProceeds(m, d, aps, op, d1, State(), Debugger());
      o := Advance(op, args);
    }

    /** Run the handler, then stop, move past the operands, or record the
        jump target. */
    method Advance(op: Opcode, args: seq<nat>) returns (o: Outcome)
      requires Valid() && |args| == Arity(op) && pc + |args| < MOD
      modifies this, memory, registers
      ensures Valid()
      ensures (State(), Debugger(), o) == Semantics.Advance(old(State()), old(Debugger()), aps, op, args)
    {
      var s := Execute(op, args);
      match s
      case Halt =>
        o := Halted;
      case Continue =>
        pc := pc + |args| + 1;
        o := Running;
      case Jump =>
        jumpDestinations := jumpDestinations + {pc};
        o := Running;
      case Raise(f) =>
        o := Faulted(f);
    }

    /** One iteration of `run` with `n` iterations still allowed: the run
        from the old state is this iteration followed by the rest. */
    method Tick(ghost n: nat) returns (o: Outcome)
      requires Valid() && n > 0
      modifies this, memory, registers
      ensures Valid()
      ensures Semantics.Run(old(State()), old(Debugger()), aps, n) ==
                if o == Running then Semantics.Run(State(), Debugger(), aps, Fewer(n)) else (State(), Debugger(), o)
    {
      ghost var m, d := State(), Debugger();
      o := Step();
      RunUnfold(m, d, aps, n, (State(), Debugger(), o));
    }

    /** `run`: iterate until the machine halts, falls off the end of memory
        or raises, or until `fuel` iterations have been made. */
    method Run(fuel: nat) returns (o: Outcome)
      requires Valid()
      modifies this, memory, registers
      ensures Valid()
      ensures (State(), Debugger(), o) == Semantics.Run(old(State()), old(Debugger()), aps, fuel)
    {
      ghost var goal := Semantics.Run(State(), Debugger(), aps, fuel);
      o := Running;
      var n := fuel;
      while n > 0
        invariant Valid() && o == Running
        invariant goal == Semantics.Run(State(), Debugger(), aps, n)
      {
        o := Tick(n);
        if o != Running {
          return;
        }
        n := Fewer(n);
      }
    }

    // -------------------------------------------------------------------
    // Debugger commands, as plain state updates

    /** `rs <register> <value>`: stores `value` unreduced at the list index
        `register - 1` (a negative index counts from the end). This is the one
        way to put a non-word into a register. */
    method SetRegister(register: int, value: int) returns (ok: bool)
      requires registers.Length == REGISTERS
      modifies registers
      ensures ok <==> -(REGISTERS as int) <= register - 1 < REGISTERS
      ensures registers[..] == if ok then old(registers[..])[(register - 1) % REGISTERS := value] else old(registers[..])
      ensures old(Valid()) ==> (Valid() <==> !ok || IsWord(value))
    {
      var index := register - 1;
      if index < -(REGISTERS as int) || index >= REGISTERS {
        return false;
      }
      registers[index % REGISTERS] := value;
      return true;
    }

    /** `n <steps>`. */
    method SetSkip(steps: int)
      modifies this
      ensures State() == old(State()) && Debugger() == old(Debugger()).(skip := steps)
    {
      skip := steps;
    }

    /** `w <r,r,...>`: watch the given 1-based registers. */
    method SetWatch(regs: seq<int>)
      modifies this
      ensures State() == old(State()) && Debugger() == old(Debugger()).(watch := set x | x in regs :: x - 1)
    {
      watch := set x | x in regs :: x - 1;
    }

    /** `d`: toggle tracing (and with it the self-modification check and the prompt). */
    method ToggleDebug()
      modifies this
      ensures State() == old(State()) && Debugger() == old(Debugger()).(debug := !old(debug))
    {
      debug := !debug;
    }
  }
}
