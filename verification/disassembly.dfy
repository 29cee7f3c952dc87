/** The opcode registry and the debugger's textual rendering of an instruction.

    An instruction fetched at `pc` is rendered as `"<pc>| <name>"` followed by
    one `" <operand>"` per operand word, where an operand below 32768 is shown
    in decimal and a register reference as `r<k+1>`. The debugger keeps the
    last rendering per address; it can detect changed code through it because
    the rendering determines the instruction's words (RenderInjective).
 */
module Disassembly {
  import opened Word

  const HALT := 0
  const SET := 1
  const PUSH := 2
  const POP := 3
  const EQ := 4
  const GT := 5
  const JMP := 6
  const JT := 7
  const JF := 8
  const ADD := 9
  const MULT := 10
  const MODULO := 11
  const AND := 12
  const OR := 13
  const NOT := 14
  const RMEM := 15
  const WMEM := 16
  const CALL := 17
  const RET := 18
  const OUT := 19
  const IN := 20
  const NOOP := 21

  /** The opcodes that have a handler. */
  type Opcode = op: nat | op < 22

  /** Number of operand words each opcode takes (the handler's parameter count). */
  function Arity(op: Opcode): (n: nat)
    ensures n <= 3
  {
    [0, 2, 1, 1, 3, 3, 1, 2, 2, 3, 3, 3, 3, 3, 2, 2, 2, 1, 0, 1, 1, 0][op]
  }

  /** The handler's name with its trailing underscore stripped. */
  function Name(op: Opcode): (r: string)
    ensures 2 <= |r| <= 4 && forall i :: 0 <= i < |r| ==> 'a' <= r[i] <= 'z'
  {
    ["halt", "set", "push", "pop", "eq", "gt", "jmp", "jt", "jf", "add", "mult",
     "mod", "and", "or", "not", "rmem", "wmem", "call", "ret", "out", "in", "noop"][op]
  }

  predicate IsDigit(c: char) {
    '0' <= c <= '9'
  }

  predicate AllDigits(s: string) {
    forall i :: 0 <= i < |s| ==> IsDigit(s[i])
  }

  /** Python's `f"{n}"` for a natural number. */
  function NatStr(n: nat): (s: string)
    ensures |s| >= 1 && AllDigits(s)
  {
    var d := ['0' + (n % 10) as char];
    if n < 10 then d else NatStr(n / 10) + d
  }

  /** The value of a string of decimal digits. */
  function DigitsValue(s: string): nat
    requires AllDigits(s)
  {
    if s == [] then 0
    else DigitsValue(s[..|s| - 1]) * 10 + (s[|s| - 1] - '0') as nat
  }

  /** Reading the decimal rendering back gives the number. */
  lemma {:induction false} NatStrRoundTrip(n: nat)
    ensures DigitsValue(NatStr(n)) == n
  {
    var s := NatStr(n);
    if n >= 10 {
      assert s[..|s| - 1] == NatStr(n / 10);
      NatStrRoundTrip(n / 10);
    }
  }

  lemma NatStrInjective(m: nat, n: nat)
    requires NatStr(m) == NatStr(n)
    ensures m == n
  {
    NatStrRoundTrip(m);
    NatStrRoundTrip(n);
  }

  /** One operand word: decimal for a literal, `r<k+1>` for `32768 + k`. */
  function OperandStr(a: nat): (s: string)
    ensures |s| >= 1 && ' ' !in s
  {
    if a >= MOD then "r" + NatStr(a - MOD + 1) else NatStr(a)
  }

  /** A rendering starts with `r` exactly when it names a register. */
  lemma OperandStrHead(a: nat)
    ensures OperandStr(a)[0] == 'r' <==> a >= MOD
  {
    if a < MOD {
      assert IsDigit(NatStr(a)[0]);
    }
  }

  lemma OperandStrInjective(a: nat, b: nat)
    requires OperandStr(a) == OperandStr(b)
    ensures a == b
  {
    OperandStrHead(a);
    OperandStrHead(b);
    var sa, sb := OperandStr(a), OperandStr(b);
    if a >= MOD {
      assert sa[1..] == NatStr(a - MOD + 1) && sb[1..] == NatStr(b - MOD + 1);
      NatStrInjective(a - MOD + 1, b - MOD + 1);
    } else {
      NatStrInjective(a, b);
    }
  }

  /** The operands, each preceded by a space, in order (the loop in `run`). */
  function OperandsStr(args: seq<nat>): (r: string)
    ensures |r| >= 2 * |args|
  {
    if args == [] then ""
    else OperandsStr(args[..|args| - 1]) + " " + OperandStr(args[|args| - 1])
  }

  /** The full rendering stored in the disassembly cache. It is never empty,
      and the address can be read back from the digits before the first `|`. */
  function Render(pc: nat, op: Opcode, args: seq<nat>): (r: string)
    ensures |r| > |NatStr(pc)| + 2
    ensures r[..|NatStr(pc)|] == NatStr(pc) && r[|NatStr(pc)|] == '|'
  {
    NatStr(pc) + "| " + Name(op) + OperandsStr(args)
  }

  lemma {:induction false} OperandsStrShape(args: seq<nat>)
    ensures args == [] <==> OperandsStr(args) == ""
    ensures args != [] ==> OperandsStr(args)[0] == ' '
  {
    if args != [] {
      OperandsStrShape(args[..|args| - 1]);
    }
  }

  /** If `x + " " + y == x' + " " + y'` and neither `y` nor `y'` holds a space,
      the two splits coincide. */
  lemma SplitAtLastSpace(x: string, y: string, x': string, y': string)
    requires ' ' !in y && ' ' !in y'
    requires x + " " + y == x' + " " + y'
    ensures x == x' && y == y'
  {
    var s := x + " " + y;
    assert s[|x|] == ' ' && s[|x'|] == ' ';
    assert forall i :: |x| < i < |s| ==> s[i] == y[i - |x| - 1];
    assert forall i :: |x'| < i < |s| ==> s[i] == y'[i - |x'| - 1];
    assert |x| == |x'|;
    assert x == s[..|x|] && x' == s[..|x'|];
    assert y == s[|x| + 1..] && y' == s[|x'| + 1..];
  }

  lemma {:induction false} OperandsStrInjective(a: seq<nat>, b: seq<nat>)
    requires OperandsStr(a) == OperandsStr(b)
    ensures a == b
    decreases |a|
  {
    OperandsStrShape(a);
    OperandsStrShape(b);
    if a != [] && b != [] {
      var n, m := |a| - 1, |b| - 1;
      var ia, la, ib, lb := a[..n], a[n], b[..m], b[m];
      assert ia == ib && la == lb by {
        assert OperandsStr(ia) + " " + OperandStr(la) == OperandsStr(ib) + " " + OperandStr(lb);
        SplitAtLastSpace(OperandsStr(ia), OperandStr(la), OperandsStr(ib), OperandStr(lb));
        OperandsStrInjective(ia, ib);
        OperandStrInjective(la, lb);
      }
      assert a == ia + [la] && b == ib + [lb];
    }
  }

  lemma NameInjective(o1: Opcode, o2: Opcode)
    requires Name(o1) == Name(o2)
    ensures o1 == o2
  {
  }

  /** If `n + t == n' + t'` where the names hold no space and each tail is
      empty or begins with a space, then `n == n'` and `t == t'`. */
  lemma SplitAtFirstSpace(n: string, t: string, n': string, t': string)
    requires ' ' !in n && ' ' !in n'
    requires t == [] || t[0] == ' '
    requires t' == [] || t'[0] == ' '
    requires n + t == n' + t'
    ensures n == n' && t == t'
  {
    var s := n + t;
    assert forall i :: 0 <= i < |n| ==> s[i] == n[i];
    assert forall i :: 0 <= i < |n'| ==> s[i] == n'[i];
    assert |n| < |s| ==> s[|n|] == t[0];
    assert |n'| < |s| ==> s[|n'|] == t'[0];
    assert |n| == |n'|;
    assert n == s[..|n|] && n' == s[..|n'|];
  }

  lemma NameHasNoSpace(op: Opcode)
    ensures ' ' !in Name(op)
  {
  }

  /** Stripping the common `"<pc>| "` prefix and splitting at the first space. */
  lemma SplitRendering(p: string, n1: string, t1: string, n2: string, t2: string)
    requires ' ' !in n1 && ' ' !in n2
    requires t1 == [] || t1[0] == ' '
    requires t2 == [] || t2[0] == ' '
    requires p + n1 + t1 == p + n2 + t2
    ensures n1 == n2 && t1 == t2
  {
    assert (p + n1 + t1)[|p|..] == n1 + t1;
    assert (p + n2 + t2)[|p|..] == n2 + t2;
    SplitAtFirstSpace(n1, t1, n2, t2);
  }

  /** Two renderings at the same address agree exactly when the instructions'
      words agree: the debugger's comparison of renderings is a comparison of
      code. */
  lemma RenderInjective(pc: nat, o1: Opcode, a1: seq<nat>, o2: Opcode, a2: seq<nat>)
    ensures Render(pc, o1, a1) == Render(pc, o2, a2) <==> o1 == o2 && a1 == a2
  {
    if Render(pc, o1, a1) == Render(pc, o2, a2) {
      OperandsStrShape(a1);
      OperandsStrShape(a2);
      NameHasNoSpace(o1);
      NameHasNoSpace(o2);
      SplitRendering(NatStr(pc) + "| ", Name(o1), OperandsStr(a1), Name(o2), OperandsStr(a2));
      NameInjective(o1, o2);
      OperandsStrInjective(a1, a2);
    }
  }
}
