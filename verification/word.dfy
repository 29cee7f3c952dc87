/** Words, faults and operand resolution of the 15-bit machine.

    A word is a value in [0, 32768). An operand word below 32768 is a literal;
    32768..32775 names one of the eight registers; anything larger is invalid.
 */
module Word {

  /** The word modulus, `1 << 15`. */
  const MOD: nat := 32768

  /** Number of registers. */
  const REGISTERS: nat := 8

  /** The value the `%` input hook and the memory patch put into register 8. */
  const HOOK_VALUE: nat := 25734

  /** Every way a run can end abnormally. */
  datatype Fault =
    | UnknownOpcode(op: nat)       // a fetched word with no handler
    | TruncatedInstruction         // the operands would run past the last address
    | InvalidOperand(value: int)   // `read` of a value >= 32776
    | InvalidTarget(addr: int)     // `write` to a value that is not a register
    | StackUnderflow               // `pop` or `ret` on an empty stack
    | DivisionByZero               // `mod` by zero
    | InputExhausted               // the operator has no more lines to give
    | EmptyInput                   // a line expanded to nothing, so there is no character to take
    | InstructionChanged(pc: nat)  // debug mode saw a different rendering at a known address

  datatype Result<T> = Ok(value: T) | Err(fault: Fault)

  predicate IsWord(x: int) {
    0 <= x < MOD
  }

  /** Eight registers, each holding a word. */
  predicate WordRegisters(regs: seq<int>) {
    |regs| == REGISTERS && forall i :: 0 <= i < |regs| ==> IsWord(regs[i])
  }

  /** `read`: a literal stands for itself, a register reference for that register's content. */
  function ReadOperand(regs: seq<int>, v: int): (r: Result<int>)
    requires |regs| == REGISTERS
    ensures r.Ok? <==> v < MOD + REGISTERS
    ensures r.Err? ==> r.fault == InvalidOperand(v)
    ensures v < MOD ==> r == Ok(v)
    ensures MOD <= v && r.Ok? ==> r.value == regs[v - MOD]
    ensures WordRegisters(regs) && 0 <= v && r.Ok? ==> IsWord(r.value)
  {
    if v < MOD then Ok(v)
    else if v - MOD >= REGISTERS then Err(InvalidOperand(v))
    else Ok(regs[v - MOD])
  }

  /** `write`: only a register reference is a target; the value stored is
      reduced modulo 32768 (Python's `%`, which agrees with Dafny's for a
      positive modulus) and no other register changes. */
  function WriteRegister(regs: seq<int>, addr: int, value: int): (r: Result<seq<int>>)
    requires |regs| == REGISTERS
    ensures r.Ok? <==> MOD <= addr < MOD + REGISTERS
    ensures r.Err? ==> r.fault == InvalidTarget(addr)
    ensures r.Ok? ==> |r.value| == REGISTERS && IsWord(r.value[addr - MOD])
    ensures r.Ok? ==> (r.value[addr - MOD] - value) % MOD == 0
    ensures r.Ok? ==> forall i :: 0 <= i < REGISTERS && i != addr - MOD ==> r.value[i] == regs[i]
    ensures r.Ok? && WordRegisters(regs) ==> WordRegisters(r.value)
  {
    if addr < MOD || addr - MOD >= REGISTERS then Err(InvalidTarget(addr))
    else Ok(regs[addr - MOD := value % MOD])
  }

  /** Bitwise and of two words (15 bits each). */
  function And(x: int, y: int): (r: int)
    requires IsWord(x) && IsWord(y)
    ensures IsWord(r)
  {
    ((x as bv15) & (y as bv15)) as int
  }

  /** Bitwise or of two words (15 bits each). */
  function Or(x: int, y: int): (r: int)
    requires IsWord(x) && IsWord(y)
    ensures IsWord(r)
  {
    ((x as bv15) | (y as bv15)) as int
  }

  /** The bitwise laws the handlers rely on: both operations commute, zero
      annihilates `and` and is neutral for `or`, and both are idempotent. */
  lemma BitwiseLaws(x: int, y: int)
    requires IsWord(x) && IsWord(y)
    ensures And(x, y) == And(y, x) && Or(x, y) == Or(y, x)
    ensures And(x, 0) == 0 && Or(x, 0) == x
    ensures And(x, x) == x && Or(x, x) == x
  {
  }

  /** Python's `~x`, before `write` reduces it: on a word it is negative, and
      once reduced it is the 15-bit complement `32767 - x`. */
  function Complement(x: int): (r: int)
    ensures IsWord(x) ==> r < 0 && r % MOD == MOD - 1 - x
  {
    -x - 1
  }

  /** Complementing twice, with the reduction `write` applies after each,
      gives the word back. */
  lemma ComplementIsFlip(x: int)
    requires IsWord(x)
    ensures Complement(Complement(x) % MOD) % MOD == x
  {
  }
}
