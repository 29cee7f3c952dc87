/** The machine's meaning as pure functions: the reference the `VM` class is
    proved against, and the object of the lemmas about handlers, the step
    function, the input channel and the debugger bookkeeping.
 */
module Semantics {
  import opened Word
  import opened Walkthrough
  import opened Disassembly

  /** Everything a handler can read or change. `console` holds the lines the
      operator will type, in order; `output` the character codes printed. */
  datatype Machine = Machine(
    memory: seq<nat>,
    registers: seq<int>,
    stack: seq<nat>,
    pc: nat,
    buffer: string,
    console: seq<string>,
    output: seq<int>)

  /** What every reachable state satisfies: a full memory, word registers, a
      pc at most one past the end, and stack entries no larger than 32768
      (the return address a `call` at 32766 pushes). */
  predicate WellFormed(m: Machine) {
    && |m.memory| == MOD
    && WordRegisters(m.registers)
    && m.pc <= MOD
    && forall i :: 0 <= i < |m.stack| ==> m.stack[i] <= MOD
  }

  /** The debugger's state: trace mode, the step counter, the watched
      register indices, the rendering cache and the jump targets seen. */
  datatype Session = Session(
    debug: bool,
    skip: int,
    watch: set<int>,
    dis: map<nat, string>,
    jumps: set<nat>)

  /** What a handler returns: `HLT`, `JMP`, `CNT`, or an exception. */
  datatype Signal = Halt | Jump | Continue | Raise(fault: Fault)

  /** What one iteration of the run loop leads to. */
  datatype Outcome = Running | Halted | OffEnd | Faulted(fault: Fault)

  /** The input character that is never delivered and sets register 8. */
  const HOOK: char := '%'

  // ---------------------------------------------------------------------
  // Handlers

  /** `write(addr, value)` as the tail of a handler that then returns `CNT`. */
  function Store(m: Machine, addr: int, value: int): (r: (Machine, Signal))
    requires WellFormed(m)
    ensures WellFormed(r.0) && r.0.(registers := m.registers) == m
    ensures r.1 == Continue || r.1 == Raise(InvalidTarget(addr))
    ensures r.1 == Continue <==> MOD <= addr < MOD + REGISTERS
    ensures r.1 == Continue ==> r.0.registers == m.registers[addr - MOD := value % MOD]
  {
    match WriteRegister(m.registers, addr, value)
    case Err(f) => (m, Raise(f))
    case Ok(regs) => (m.(registers := regs), Continue)
  }

  /** `jmp(v)`: the pc becomes `read(v)`. */
  function JumpTo(m: Machine, v: nat): (r: (Machine, Signal))
    requires WellFormed(m)
    ensures r.1 == Jump || r.1 == Raise(InvalidOperand(v))
    ensures r.1 == Jump <==> ReadOperand(m.registers, v).Ok?
    ensures r.1 == Jump ==> r.0 == m.(pc := ReadOperand(m.registers, v).value) && r.0.pc < MOD
    ensures r.1 != Jump ==> r.0 == m
  {
    match ReadOperand(m.registers, v)
    case Err(f) => (m, Raise(f))
    case Ok(x) => (m.(pc := x), Jump)
  }

  predicate IsBinary(op: Opcode) {
    op == EQ || op == GT || op == ADD || op == MULT || op == MODULO || op == AND || op == OR
  }

  /** The value a three-operand handler passes to `write`, before reduction. */
  function BinaryValue(op: Opcode, x: int, y: int): (r: Result<int>)
    requires IsBinary(op) && IsWord(x) && IsWord(y)
    ensures r.Err? <==> op == MODULO && y == 0
    ensures r.Err? ==> r.fault == DivisionByZero
    ensures (op == EQ || op == GT) && r.Ok? ==> r.value == 0 || r.value == 1
  {
    if op == EQ then Ok(if x == y then 1 else 0)
    else if op == GT then Ok(if x > y then 1 else 0)
    else if op == ADD then Ok(x + y)
    else if op == MULT then Ok(x * y)
    else if op == MODULO then (if y == 0 then Err(DivisionByZero) else Ok(x % y))
    else if op == AND then Ok(And(x, y))
    else Ok(Or(x, y))
  }

  /** `send_input` applied to each line in turn: every line followed by a newline. */
  function Feed(lines: seq<string>): (s: string)
    ensures s == [] <==> lines == []
  {
    if lines == [] then ""
    else Feed(lines[..|lines| - 1]) + lines[|lines| - 1] + "\n"
  }

  /** What `in_` takes from the input channel: the character delivered (or the
      exception raised), the buffer and operator lines left, and whether a `%`
      was skipped on the way (each one sets register 8). */
  datatype Consumed = Consumed(got: Result<char>, buffer: string, console: seq<string>, hooked: bool)

  /** `in_`'s input side: refill from one operator line (expanded through the
      walkthrough table) only when the buffer is empty, then take the first
      character; a `%` is dropped and the whole operation starts again. */
  function Consume(t: Table, buffer: string, console: seq<string>): (r: Consumed)
    requires Ranked(t)
    ensures r.got.Ok? ==> r.got.value != HOOK
    ensures r.got.Ok? || r.got.fault == InputExhausted || r.got.fault == EmptyInput
    ensures |r.console| <= |console|
    decreases |console|, |buffer|
  {
    if buffer == [] then
      if console == [] then Consumed(Err(InputExhausted), buffer, console, false)
      else
        var refill := Feed(Expand(t, console[0]));
        if refill == [] then Consumed(Err(EmptyInput), refill, console[1..], false)
        else Consume(t, refill, console[1..])
    else if buffer[0] == HOOK then
      Consume(t, buffer[1..], console).(hooked := true)
    else Consumed(Ok(buffer[0]), buffer[1..], console, false)
  }

  /** The opcode handlers: `op` applied to its operand words `args`. An
      exception leaves whatever the handler had already changed. */
  function Exec(m: Machine, t: Table, op: Opcode, args: seq<nat>): (r: (Machine, Signal))
    requires WellFormed(m) && Ranked(t)
    requires |args| == Arity(op) && m.pc + |args| < MOD
    ensures WellFormed(r.0)
    ensures r.1 != Jump ==> r.0.pc == m.pc
    ensures r.1 == Halt <==> op == HALT
    ensures r.0.memory != m.memory ==> op == WMEM
    ensures r.0.stack != m.stack ==> op == PUSH || op == POP || op == CALL || op == RET
    ensures r.0.output != m.output ==> op == OUT
    ensures r.1.Raise? ==> !r.1.fault.InstructionChanged?
  {
    if op == HALT then (m, Halt)
    else if op == SET then
      (match ReadOperand(m.registers, args[1])
       case Err(f) => (m, Raise(f))
       case Ok(x) => Store(m, args[0], x))
    else if op == PUSH then
      (match ReadOperand(m.registers, args[0])
       case Err(f) => (m, Raise(f))
       case Ok(x) => (m.(stack := m.stack + [x]), Continue))
    else if op == POP then
      if m.stack == [] then (m, Raise(StackUnderflow))
      else
        var top := m.stack[|m.stack| - 1];
        Store(m.(stack := m.stack[..|m.stack| - 1]), args[0], top)
    else if IsBinary(op) then
      (match ReadOperand(m.registers, args[1])
       case Err(f) => (m, Raise(f))
       case Ok(x) =>
         match ReadOperand(m.registers, args[2])
         case Err(f) => (m, Raise(f))
         case Ok(y) =>
           match BinaryValue(op, x, y)
           case Err(f) => (m, Raise(f))
           case Ok(v) => Store(m, args[0], v))
    else if op == JMP then JumpTo(m, args[0])
    else if op == JT || op == JF then
      (match ReadOperand(m.registers, args[0])
       case Err(f) => (m, Raise(f))
       case Ok(x) => if (x != 0) == (op == JT) then JumpTo(m, args[1]) else (m, Continue))
    else if op == NOT then
      (match ReadOperand(m.registers, args[1])
       case Err(f) => (m, Raise(f))
       case Ok(x) => Store(m, args[0], Complement(x)))
    else if op == RMEM then
      (match ReadOperand(m.registers, args[1])
       case Err(f) => (m, Raise(f))
       case Ok(x) => Store(m, args[0], m.memory[x]))
    else if op == WMEM then
      // Python evaluates the right-hand side `read(b)` before the index `read(a)`.
      (match ReadOperand(m.registers, args[1])
       case Err(f) => (m, Raise(f))
       case Ok(y) =>
         match ReadOperand(m.registers, args[0])
         case Err(f) => (m, Raise(f))
         case Ok(x) => (m.(memory := m.memory[x := y]), Continue))
    else if op == CALL then
      JumpTo(m.(stack := m.stack + [m.pc + 2]), args[0])
    else if op == RET then
      if m.stack == [] then (m, Raise(StackUnderflow))
      else
        var top := m.stack[|m.stack| - 1];
        JumpTo(m.(stack := m.stack[..|m.stack| - 1]), top)
    else if op == OUT then
      (match ReadOperand(m.registers, args[0])
       case Err(f) => (m, Raise(f))
       case Ok(x) => (m.(output := m.output + [x]), Continue))
    else if op == IN then Input(m, t, args[0])
    else (m, Continue)
  }

  /** `in_(a)`: consume from the input channel, set register 8 if a `%` was
      skipped, then write the character's code to `a`. Only the registers,
      the buffer and the operator lines change. */
  function Input(m: Machine, t: Table, a: nat): (r: (Machine, Signal))
    requires WellFormed(m) && Ranked(t)
    ensures WellFormed(r.0)
    ensures r.0 == m.(registers := r.0.registers, buffer := r.0.buffer, console := r.0.console)
    ensures r.1 == Continue || r.1 == Raise(InvalidTarget(a)) || r.1 == Raise(InputExhausted) || r.1 == Raise(EmptyInput)
  {
    var c := Consume(t, m.buffer, m.console);
    var regs := if c.hooked then m.registers[REGISTERS - 1 := HOOK_VALUE] else m.registers;
    var m1 := m.(registers := regs, buffer := c.buffer, console := c.console);
    match c.got
    case Err(f) => (m1, Raise(f))
    case Ok(ch) => Store(m1, a, ch as int)
  }

  /** A leading `%` in the buffer can be taken first: dropping it and setting
      register 8 leaves the result of `in_` unchanged. */
  lemma ExecInHook(m: Machine, t: Table, a: nat)
    requires WellFormed(m) && Ranked(t) && m.pc + 1 < MOD
    requires m.buffer != [] && m.buffer[0] == HOOK
    ensures Exec(m.(registers := m.registers[REGISTERS - 1 := HOOK_VALUE], buffer := m.buffer[1..]), t, IN, [a])
            == Exec(m, t, IN, [a])
  {
    var regs := m.registers[REGISTERS - 1 := HOOK_VALUE];
    assert regs[REGISTERS - 1 := HOOK_VALUE] == regs;
  }

  /** An empty buffer can be refilled first: moving the next operator line,
      expanded and fed, into the buffer leaves the result of `in_` unchanged
      as long as the refill is not empty. */
  lemma ExecInRefill(m: Machine, t: Table, a: nat)
    requires WellFormed(m) && Ranked(t) && m.pc + 1 < MOD
    requires m.buffer == [] && m.console != [] && Feed(Expand(t, m.console[0])) != []
    ensures Exec(m.(buffer := Feed(Expand(t, m.console[0])), console := m.console[1..]), t, IN, [a])
            == Exec(m, t, IN, [a])
  {
  }

  // ---------------------------------------------------------------------
  // The run loop

  /** `any(a - 32768 in watch for a in args)`. */
  predicate WatchHit(watch: set<int>, args: seq<nat>): (hit: bool)
    ensures hit ==> watch != {} && args != []
    ensures forall i :: 0 <= i < |args| && args[i] - MOD in watch ==> hit
  {
    exists i :: 0 <= i < |args| && args[i] - MOD in watch
  }

  /** The operand words of the instruction at `pc`. */
  function Operands(m: Machine, op: Opcode): (r: seq<nat>)
    requires |m.memory| == MOD && m.pc + Arity(op) < MOD
    ensures |r| == Arity(op)
    ensures forall i :: 0 <= i < |r| ==> r[i] == m.memory[m.pc + 1 + i]
  {
    m.memory[m.pc + 1 .. m.pc + 1 + Arity(op)]
  }

  /** One iteration of `run`: fetch, check, render and cache, the debug-mode
      checks and prompt, dispatch, then advance or record the jump. */
  function Step(m: Machine, d: Session, t: Table): (r: (Machine, Session, Outcome))
    requires WellFormed(m) && Ranked(t)
    ensures WellFormed(r.0)
    ensures r.2 == OffEnd <==> m.pc == MOD
    ensures r.2 == OffEnd ==> r.0 == m && r.1 == d
    ensures r.0.output != m.output ==> r.2 == Running
    ensures r.1.debug == d.debug
  {
    if m.pc >= |m.memory| then (m, d, OffEnd)
    else
      var op := m.memory[m.pc];
      if op >= 22 then (m, d, Faulted(UnknownOpcode(op)))
      else if m.pc + Arity(op) >= |m.memory| then (m, d, Faulted(TruncatedInstruction))
      else Cycle(m, d, t, op)
  }

  /** The rest of an iteration once `op` is fetched and its operands are in
      memory: render and cache, the debug-mode checks and pause, then the
      handler. */
  function Cycle(m: Machine, d: Session, t: Table, op: Opcode): (r: (Machine, Session, Outcome))
    requires WellFormed(m) && Ranked(t)
    requires m.pc + Arity(op) < MOD
    ensures WellFormed(r.0) && r.2 != OffEnd
    ensures r.0.output != m.output ==> r.2 == Running
    ensures r.1.debug == d.debug
  {
    var args := Operands(m, op);
    var line := Render(m.pc, op, args);
    var d1 := d.(watch := if WatchHit(d.watch, args) then {} else d.watch,
                 dis := d.dis[m.pc := line]);
    // An empty cached entry counts as no entry: only a non-empty earlier
    // rendering that differs raises.
    if d.debug && m.pc in d.dis && d.dis[m.pc] != "" && d.dis[m.pc] != line then
      (m, d1, Faulted(InstructionChanged(m.pc)))
    else if d.debug && d1.skip == 0 && d1.watch == {} && m.console == [] then
      (m, d1, Faulted(InputExhausted))
    else
      var (m1, d2) :=
        if !d.debug then (m, d1)
        else if d1.skip != 0 then (m, d1.(skip := d1.skip - 1))
        else if d1.watch != {} then (m, d1)
        else (m.(console := m.console[1..]), d1);
      Advance(m1, d2, t, op, args)
  }

  /** When neither debug-mode check stops the iteration, it is the pause
      followed by the handler. */
  lemma CycleProceeds(m: Machine, d: Session, t: Table, op: Opcode, d1: Session, m1: Machine, d2: Session)
    requires WellFormed(m) && Ranked(t) && m.pc + Arity(op) < MOD
    requires var args := Operands(m, op);
             d1 == d.(watch := if WatchHit(d.watch, args) then {} else d.watch,
                      dis := d.dis[m.pc := Render(m.pc, op, args)])
    requires !(d.debug && m.pc in d.dis && d.dis[m.pc] != "" && d.dis[m.pc] != Render(m.pc, op, Operands(m, op)))
    requires !(d.debug && d1.skip == 0 && d1.watch == {} && m.console == [])
    requires (m1, d2) ==
               if !d.debug then (m, d1)
               else if d1.skip != 0 then (m, d1.(skip := d1.skip - 1))
               else if d1.watch != {} then (m, d1)
               else (m.(console := m.console[1..]), d1)
    ensures WellFormed(m1)
    ensures Cycle(m, d, t, op) == Advance(m1, d2, t, op, Operands(m, op))
  {
  }

  /** The end of an iteration: run the handler, then stop, move past the
      operands, or record the jump target. */
  function Advance(m: Machine, d: Session, t: Table, op: Opcode, args: seq<nat>): (r: (Machine, Session, Outcome))
    requires WellFormed(m) && Ranked(t)
    requires |args| == Arity(op) && m.pc + |args| < MOD
    ensures WellFormed(r.0) && r.2 != OffEnd
    ensures r.0.output != m.output ==> r.2 == Running
    ensures r.1.(jumps := d.jumps) == d
    ensures r.1.dis == d.dis && r.1.watch == d.watch && r.1.skip == d.skip
  {
    var (m2, s) := Exec(m, t, op, args);
    match s
    case Halt => (m2, d, Halted)
    case Continue => (m2.(pc := m2.pc + Arity(op) + 1), d, Running)
    case Jump => (m2, d.(jumps := d.jumps + {m2.pc}), Running)
    case Raise(f) => (m2, d, Faulted(f))
  }

  /** `run` for at most `fuel` iterations; `Running` means the budget ran out. */
  function Run(m: Machine, d: Session, t: Table, fuel: nat): (r: (Machine, Session, Outcome))
    requires WellFormed(m) && Ranked(t)
    ensures WellFormed(r.0)
    ensures r.2 == OffEnd ==> r.0.pc == MOD
    ensures r.1.debug == d.debug
    decreases fuel
  {
    if fuel == 0 then (m, d, Running)
    else
      var r1 := Step(m, d, t);
      if r1.2 == Running then Run(r1.0, r1.1, t, Fewer(fuel)) else r1
  }

  /** A proof device, not part of the machine: `fuel - 1`, the budget left
      after one iteration. `Run` recurses on it and the lemmas about runs name
      it, so that the solver compares budgets as equal terms instead of
      through arithmetic. */
  function Fewer(fuel: nat): (r: nat)
    requires fuel > 0
    ensures r < fuel
  {
    fuel - 1
  }

  /** A run with fuel left is one step followed by the rest of the run. */
  lemma RunUnfold(m: Machine, d: Session, t: Table, fuel: nat, r: (Machine, Session, Outcome))
    requires WellFormed(m) && Ranked(t) && fuel > 0
    requires r == Step(m, d, t)
    ensures WellFormed(r.0)
    ensures Run(m, d, t, fuel) == if r.2 == Running then Run(r.0, r.1, t, Fewer(fuel)) else r
  {
  }

  // ---------------------------------------------------------------------
  // Loading and patching

  type Byte = b: nat | b < 256

  /** A program word is stored low byte first: `high << 8 | low`. */
  function LittleEndian(low: Byte, high: Byte): (w: nat)
    ensures w < 65536 && w % 256 == low && w / 256 == high
  {
    high * 256 + low
  }

  /** The memory after loading `program`: one word per byte pair, for as many
      complete pairs as fit, everything else as before. */
  function Loaded(mem: seq<nat>, program: seq<Byte>): (r: seq<nat>)
    requires |mem| == MOD
    ensures |r| == MOD
  {
    seq(MOD, k requires 0 <= k < MOD =>
      if k < |program| / 2 then LittleEndian(program[2 * k], program[2 * k + 1]) else mem[k])
  }

  /** The out-of-band patch `modify` applies before a run. */
  function Patch(mem: seq<nat>): (r: seq<nat>)
    requires |mem| == MOD
    ensures |r| == MOD
  {
    mem[5485 := 6][5487 := MOD + 7][5488 := HOOK_VALUE][5489 := NOOP][5490 := NOOP]
  }
}
