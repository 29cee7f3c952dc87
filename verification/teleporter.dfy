/** The search for the eighth register's value: a three-argument variant of
    Ackermann's function computed modulo 32768, where `param` (the register)
    replaces the usual 1 in the `b == 0` case, evaluated with a memo table and
    tried for every candidate in turn.
 */
module Teleporter {

  const MOD: nat := 32768

  datatype Option<T> = None | Some(value: T)

  /** `ack(a, b)` with the global `param`: both arguments are first reduced
      modulo 32768. */
  function Ack(param: nat, a: nat, b: nat): (r: nat)
    ensures r < MOD
  {
    Reduced(param, a % MOD, b % MOD)
  }

  /** The body of `ack` once its arguments are reduced. The recursion
      descends lexicographically on `(a, b)`. */
  function Reduced(param: nat, a: nat, b: nat): (r: nat)
    requires a < MOD && b < MOD
    ensures r < MOD
    decreases a, b
  {
    if a == 0 then (b + 1) % MOD
    else if b == 0 then Reduced(param, a - 1, param % MOD)
    else Reduced(param, a - 1, Reduced(param, a, b - 1))
  }

  /** Adding a multiple of the modulus does not change a residue. */
  lemma {:induction false} ShiftMod(z: nat, q: nat)
    ensures (q * MOD + z) % MOD == z % MOD
  {
    if q > 0 {
      ShiftMod(z, q - 1);
      assert q * MOD + z == ((q - 1) * MOD + z) + MOD;
    }
  }

  /** Reducing a summand first gives the same residue. */
  lemma AddMod(x: nat, y: nat)
    ensures (x + y % MOD) % MOD == (x + y) % MOD
  {
    ShiftMod(x + y % MOD, y / MOD);
    assert y / MOD * MOD + (x + y % MOD) == x + y;
  }

  /** With first argument 1 the recurrence adds `param + 1`. */
  lemma {:induction false} ReducedOne(param: nat, b: nat)
    requires b < MOD
    ensures Reduced(param, 1, b) == (param + 1 + b) % MOD
  {
    if b == 0 {
      assert Reduced(param, 1, 0) == (param % MOD + 1) % MOD;
      AddMod(1, param);
    } else {
      var u := Reduced(param, 1, b - 1);
      assert Reduced(param, 1, b) == (u + 1) % MOD;
      ReducedOne(param, b - 1);
      AddMod(1, param + b);
    }
  }

  /** The arithmetic step of ReducedTwo: adding `param + 1` to the residue
      for `b - 1` gives the residue for `b`. */
  lemma AffineStep(param: nat, b: nat, v: nat)
    requires 0 < b && v == ((b - 1 + 2) * param + (b - 1) + 1) % MOD
    ensures (param + 1 + v) % MOD == ((b + 2) * param + b + 1) % MOD
  {
    assert (b - 1 + 2) * param + (b - 1) + 1 == (b + 1) * param + b;
    AddMod(param + 1, (b + 1) * param + b);
    assert (b + 2) * param == (b + 1) * param + param;
  }

  /** One step of ReducedTwo: the value for `b` from the value for `b - 1`. */
  lemma ReducedTwoStep(param: nat, b: nat)
    requires 0 < b < MOD
    requires Reduced(param, 2, b - 1) == ((b - 1 + 2) * param + (b - 1) + 1) % MOD
    ensures Reduced(param, 2, b) == ((b + 2) * param + b + 1) % MOD
  {
    var v := Reduced(param, 2, b - 1);
    assert Reduced(param, 2, b) == Reduced(param, 1, v);
    ReducedOne(param, v);
    AffineStep(param, b, v);
  }

  /** The base case of ReducedTwo. */
  lemma ReducedTwoBase(param: nat)
    ensures Reduced(param, 2, 0) == (2 * param + 1) % MOD
  {
    assert Reduced(param, 2, 0) == Reduced(param, 1, param % MOD);
    ReducedOne(param, param % MOD);
    AddMod(param + 1, param);
  }

  /** With first argument 2 the recurrence is affine in `b`. */
  lemma {:induction false} ReducedTwo(param: nat, b: nat)
    requires b < MOD
    ensures Reduced(param, 2, b) == ((b + 2) * param + b + 1) % MOD
  {
    if b == 0 {
      ReducedTwoBase(param);
    } else {
      ReducedTwo(param, b - 1);
      ReducedTwoStep(param, b);
    }
  }

  /** `ack(1, b)` for any `b`: the sum `param + 1 + b` modulo 32768. */
  lemma AckOne(param: nat, b: nat)
    ensures Ack(param, 1, b) == (param + 1 + b) % MOD
  {
    ReducedOne(param, b % MOD);
    AddMod(param + 1, b);
  }

  /** `ack(2, b)` for any `b`: `(b + 2) * param + b + 1` modulo 32768. The
      closed form is a polynomial in `b`, so reducing `b` first changes
      nothing. */
  lemma AckTwo(param: nat, b: nat)
    ensures Ack(param, 2, b) == ((b + 2) * param + b + 1) % MOD
  {
    ReducedTwo(param, b % MOD);
    AffineMod(param, b);
  }

  /** The arithmetic of AckTwo: the affine form takes the same residue at `b`
      and at `b % MOD`. */
  lemma AffineMod(param: nat, b: nat)
    ensures ((b % MOD + 2) * param + b % MOD + 1) % MOD == ((b + 2) * param + b + 1) % MOD
  {
    var c, q := b % MOD, b / MOD;
    var k := q * MOD;
    assert b == k + c;
    var z := (c + 2) * param + c + 1;
    assert (b + 2) * param == k * param + (c + 2) * param;
    assert k * param + k == (q * (param + 1)) * MOD;
    ShiftMod(z, q * (param + 1));
  }

  /** The memo table and the parameter, the globals `dp` and `param`. */
  class Memo {
    var dp: map<(nat, nat), nat>
    var param: nat

    /** Every entry is keyed by reduced, non-zero first and reduced second
        arguments and agrees with the recurrence. */
    ghost predicate Valid()
      reads this
    {
      forall k :: k in dp ==> 0 < k.0 < MOD && k.1 < MOD && dp[k] == Reduced(param, k.0, k.1)
    }

    constructor ()
      ensures Valid() && dp == map[] && param == 0
    {
      dp := map[];
      param := 0;
    }

    /** `ack(a, b)`, filling the memo table as it goes. */
    method AckMemo(a: nat, b: nat) returns (r: nat)
      requires Valid()
      modifies this
      ensures Valid() && param == old(param) && old(dp).Keys <= dp.Keys
      ensures r == Ack(param, a, b)
      decreases a % MOD, b % MOD
    {
      var a', b' := a % MOD, b % MOD;
      if a' == 0 {
        return (b' + 1) % MOD;
      }
      var key: (nat, nat) := (a', b');
      if key in dp {
        return dp[key];
      }
      if b' == 0 {
        r := AckMemo(a' - 1, param);
        assert r == Reduced(param, a' - 1, param % MOD);
      } else {
        var inner := AckMemo(a', b' - 1);
        assert inner == Reduced(param, a', b' - 1);
        r := AckMemo(a' - 1, inner);
        assert r == Reduced(param, a' - 1, inner);
      }
      assert r == Reduced(param, a', b');
      dp := dp[key := r];
    }

    /** `ackermann(k)`: set the parameter, clear the table, evaluate
        `ack(4, 1)`. */
    method Ackermann(k: nat) returns (r: nat)
      modifies this
      ensures Valid() && param == k
      ensures r == Ack(k, 4, 1)
    {
      param := k;
      dp := map[];
      r := AckMemo(4, 1);
    }
  }

  /** One more candidate that misses extends the prefix of misses. */
  lemma NoHitYet(n: nat)
    requires forall j :: 1 <= j < n ==> Ack(j, 4, 1) != 6
    requires Ack(n, 4, 1) != 6
    ensures forall j :: 1 <= j < n + 1 ==> Ack(j, 4, 1) != 6
  {}

  /** The loop in `main`: the least `i` in [1, 32768) for which
      `ackermann(i)` is 6, if there is one. */
  method FindParameter() returns (found: Option<nat>)
    ensures found.Some? ==> 1 <= found.value < MOD && Ack(found.value, 4, 1) == 6
    ensures found.Some? ==> forall j :: 1 <= j < found.value ==> Ack(j, 4, 1) != 6
    ensures found.None? ==> forall j :: 1 <= j < MOD ==> Ack(j, 4, 1) != 6
  {
    var memo := new Memo();
    for i := 1 to MOD
      invariant forall j :: 1 <= j < i ==> Ack(j, 4, 1) != 6
    {
      var v := memo.Ackermann(i);
      if v == 6 {
        return Some(i);
      }
      NoHitYet(i);
    }
    return None;
  }
}
