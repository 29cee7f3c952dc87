/** The abbreviation table of the walkthrough and its expansion (`get_from_ap`).

    A key of the table stands for a list of entries; an entry may itself be a
    key, and expansion replaces keys by their entries until only plain
    commands are left. The table is abstract here: `rank` witnesses that no key
    reaches itself, by giving every key a number larger than that of each key
    among its entries.
 */
module Walkthrough {

  datatype Table = Table(entries: map<string, seq<string>>, rank: map<string, nat>)

  /** The rank of a string: one more than its witness number when it is a key,
      0 for a plain command. */
  function Rank(t: Table, x: string): nat {
    if x in t.entries && x in t.rank then t.rank[x] + 1 else 0
  }

  /** The table is acyclic: every entry ranks strictly below its key. */
  ghost predicate Ranked(t: Table) {
    && t.entries.Keys <= t.rank.Keys
    && forall k, x :: k in t.entries && x in t.entries[k] ==> Rank(t, x) < Rank(t, k)
  }

  /** The largest rank among `xs`. */
  function MaxRank(t: Table, xs: seq<string>): (r: nat)
    ensures forall x :: x in xs ==> Rank(t, x) <= r
  {
    if xs == [] then 0
    else
      var rest := MaxRank(t, xs[1..]);
      if Rank(t, xs[0]) > rest then Rank(t, xs[0]) else rest
  }

  lemma {:induction false} MaxRankBelow(t: Table, xs: seq<string>, bound: nat)
    requires 0 < bound
    requires forall x :: x in xs ==> Rank(t, x) < bound
    ensures MaxRank(t, xs) < bound
  {
    if xs != [] {
      assert xs[0] in xs;
      assert forall x :: x in xs[1..] ==> x in xs;
      MaxRankBelow(t, xs[1..], bound);
    }
  }

  /** `get_from_ap(c)`: `[c]` for a plain command, otherwise the expansions of
      the key's entries, concatenated in order. No key is left in the result,
      so a plain command is exactly one that expands to itself. */
  function Expand(t: Table, c: string): (r: seq<string>)
    requires Ranked(t)
    ensures forall y :: y in r ==> y !in t.entries
    ensures c !in t.entries <==> r == [c]
    decreases Rank(t, c), 0
  {
    if c !in t.entries then [c]
    else
      MaxRankBelow(t, t.entries[c], Rank(t, c));
      ExpandAll(t, t.entries[c])
  }

  /** The comprehension `[y for x in xs for y in get_from_ap(x)]`: it too
      yields only plain commands. */
  function ExpandAll(t: Table, xs: seq<string>): (r: seq<string>)
    requires Ranked(t)
    ensures forall y :: y in r ==> y !in t.entries
    decreases MaxRank(t, xs), 1, |xs|
  {
    if xs == [] then []
    else Expand(t, xs[0]) + ExpandAll(t, xs[1..])
  }

  /** Expansion of a concatenation is the concatenation of expansions. */
  lemma {:induction false} ExpandAllAppend(t: Table, xs: seq<string>, ys: seq<string>)
    requires Ranked(t)
    ensures ExpandAll(t, xs + ys) == ExpandAll(t, xs) + ExpandAll(t, ys)
    decreases |xs|
  {
    if xs == [] {
      assert xs + ys == ys;
    } else {
      assert (xs + ys)[0] == xs[0];
      assert (xs + ys)[1..] == xs[1..] + ys;
      ExpandAllAppend(t, xs[1..], ys);
    }
  }

  /** Expanding plain commands changes nothing. */
  lemma {:induction false} ExpandAllOfPlain(t: Table, xs: seq<string>)
    requires Ranked(t)
    requires forall x :: x in xs ==> x !in t.entries
    ensures ExpandAll(t, xs) == xs
  {
    if xs != [] {
      ExpandAllOfPlain(t, xs[1..]);
    }
  }

  /** Expansion is idempotent: expanding the result again gives the same list. */
  lemma ExpandIdempotent(t: Table, c: string)
    requires Ranked(t)
    ensures ExpandAll(t, Expand(t, c)) == Expand(t, c)
  {
    ExpandAllOfPlain(t, Expand(t, c));
  }
}
