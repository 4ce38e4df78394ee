/** Canonical prefix codes, section 3.2.2 of RFC 1951.

    A code is given by its lengths alone.  Symbol s owns the interval
    [Pos(s), Pos(s) + 2^(15 - len)) of the numbers below 2^15: those whose first
    len bits, read most significant first, spell its code.  Intervals follow one
    another in order of (length, symbol), and this picture is what ties the
    encoder's codes to the decoder's tables. */
module Canonical {
  import opened Bits

  const MAX_BITS: nat := 15

  predicate LensOk(lens: seq<nat>) {
    forall i :: 0 <= i < |lens| ==> lens[i] <= MAX_BITS
  }

  /** How many of the first n symbols have length l. */
  function Rank(lens: seq<nat>, l: nat, n: nat): (r: nat)
    requires n <= |lens|
  {
    if n == 0 then 0 else Rank(lens, l, n - 1) + if lens[n - 1] == l then 1 else 0
  }

  function Count(lens: seq<nat>, l: nat): (r: nat) {
    Rank(lens, l, |lens|)
  }

  /** The smallest code of length l, as RFC 1951 computes it. */
  function FirstCode(lens: seq<nat>, l: nat): (r: nat) {
    if l <= 1 then 0 else 2 * (FirstCode(lens, l - 1) + Count(lens, l - 1))
  }

  /** The code of symbol s, most significant bit first. */
  function SymCode(lens: seq<nat>, s: nat): (r: nat)
    requires s < |lens|
  {
    FirstCode(lens, lens[s]) + Rank(lens, lens[s], s)
  }

  /** The code of symbol s in stream order: the first bit is the lowest. */
  function Code(lens: seq<nat>, s: nat): (r: nat)
    requires s < |lens|
  {
    Rev(lens[s], SymCode(lens, s))
  }

  /** The part of the code space taken by lengths 1..l, in units of 2^-15. */
  function Kraft(lens: seq<nat>, l: nat): (r: nat)
    requires l <= MAX_BITS
  {
    if l == 0 then 0 else Kraft(lens, l - 1) + Shl(Count(lens, l), MAX_BITS - l)
  }

  lemma CountIsRank(lens: seq<nat>, l: nat)
    ensures Count(lens, l) == Rank(lens, l, |lens|)
  {
  }

  lemma KraftStep(lens: seq<nat>, l: nat)
    requires 1 <= l <= MAX_BITS
    ensures Kraft(lens, l) == Kraft(lens, l - 1) + Shl(Count(lens, l), MAX_BITS - l)
  {
  }

  predicate NotOver(lens: seq<nat>) {
    Kraft(lens, MAX_BITS) <= Pow2(MAX_BITS)
  }

  predicate Complete(lens: seq<nat>) {
    Kraft(lens, MAX_BITS) == Pow2(MAX_BITS)
  }

  function Width(l: nat): (r: nat)
    requires l <= MAX_BITS
  {
    Pow2(MAX_BITS - l)
  }

  function Pos(lens: seq<nat>, s: nat): (r: nat)
    requires s < |lens| && lens[s] <= MAX_BITS
  {
    Shl(SymCode(lens, s), MAX_BITS - lens[s])
  }

  // ------------------------------------------------------------- ranks and sums

  lemma {:induction false} RankMono(lens: seq<nat>, l: nat, m: nat, n: nat)
    requires m <= n <= |lens|
    ensures Rank(lens, l, m) <= Rank(lens, l, n)
    ensures m < n && lens[m] == l ==> Rank(lens, l, m) < Rank(lens, l, n)
    decreases n
  {
    if m == n {
    } else {
      RankMono(lens, l, m, n - 1);
    }
  }

  lemma RankBound(lens: seq<nat>, s: nat)
    requires s < |lens|
    ensures Rank(lens, lens[s], s) < Count(lens, lens[s])
  {
    RankMono(lens, lens[s], s, |lens|);
  }

  /** Every rank below the count belongs to some symbol. */
  lemma {:induction false} SymOfRank(lens: seq<nat>, l: nat, r: nat, n: nat) returns (s: nat)
    requires n <= |lens| && r < Rank(lens, l, n)
    ensures s < n && lens[s] == l && Rank(lens, l, s) == r
  {
    if lens[n - 1] == l && Rank(lens, l, n - 1) == r {
      s := n - 1;
    } else {
      s := SymOfRank(lens, l, r, n - 1);
    }
  }

  lemma {:induction false} KraftMono(lens: seq<nat>, a: nat, b: nat)
    requires a <= b <= MAX_BITS
    ensures Kraft(lens, a) <= Kraft(lens, b)
  {
    if a == b {
    } else {
      KraftMono(lens, a, b - 1);
    }
  }

  /** The first code of length l starts where the shorter lengths end. */
  lemma {:induction false} FirstCodePos(lens: seq<nat>, l: nat)
    requires 1 <= l <= MAX_BITS
    ensures Shl(FirstCode(lens, l), MAX_BITS - l) == Kraft(lens, l - 1)
  {
    if l == 1 {
      ShlZero(MAX_BITS - 1);
    } else {
      var f, c := FirstCode(lens, l - 1), Count(lens, l - 1);
      FirstCodePos(lens, l - 1);
      ShlAdd(f, c, MAX_BITS - l + 1);
      ShlShl(f + c, 1, MAX_BITS - l);
    }
  }

  lemma PosIs(lens: seq<nat>, s: nat)
    requires s < |lens| && 1 <= lens[s] <= MAX_BITS
    ensures Pos(lens, s) == Kraft(lens, lens[s] - 1) + Shl(Rank(lens, lens[s], s), MAX_BITS - lens[s])
    ensures Pos(lens, s) + Width(lens[s]) <= Kraft(lens, lens[s])
  {
    var l, r := lens[s], Rank(lens, lens[s], s);
    FirstCodePos(lens, l);
    ShlAdd(FirstCode(lens, l), r, MAX_BITS - l);
    RankBound(lens, s);
    ShlNext(r, MAX_BITS - l);
    ShlMono(r + 1, Count(lens, l), MAX_BITS - l);
  }

  lemma SymCodeFits(lens: seq<nat>, s: nat)
    requires s < |lens| && 1 <= lens[s] <= MAX_BITS && NotOver(lens)
    ensures SymCode(lens, s) < Pow2(lens[s])
    ensures Pos(lens, s) + Width(lens[s]) <= Pow2(MAX_BITS)
  {
    var l := lens[s];
    PosIs(lens, s);
    KraftMono(lens, l, MAX_BITS);
    ShlPow2(l, MAX_BITS - l);
    ShlMono(Pow2(l), SymCode(lens, s), MAX_BITS - l);
  }

  // ----------------------------------------------------- codes and their intervals

  /** A bit string starts with the code of s exactly if its reading, most
      significant bit first, lies in the interval of s. */
  lemma Matches(lens: seq<nat>, s: nat, w: nat)
    requires s < |lens| && 1 <= lens[s] <= MAX_BITS && NotOver(lens)
    ensures Low(w, lens[s]) == Code(lens, s)
        <==> Pos(lens, s) <= Rev(MAX_BITS, w) < Pos(lens, s) + Width(lens[s])
  {
    var l, c := lens[s], SymCode(lens, s);
    var v := Rev(MAX_BITS, w);
    var u := Shr(v, MAX_BITS - l);
    RevInvolution(MAX_BITS, w);
    LowLow(w, l, MAX_BITS);
    RevPrefix(MAX_BITS, l, v);
    assert Low(w, l) == Rev(l, u);
    SymCodeFits(lens, s);
    LowSmall(c, l);
    RevBound(MAX_BITS, w);
    ShrBound(v, MAX_BITS, MAX_BITS - l);
    LowSmall(u, l);
    if Rev(l, u) == Rev(l, c) {
      RevInjective(l, u, c);
    }
    ShrInterval(v, MAX_BITS - l, c);
  }

  /** Intervals do not overlap and are ordered by (length, symbol). */
  lemma Ordered(lens: seq<nat>, s: nat, t: nat)
    requires s < |lens| && t < |lens| && 1 <= lens[s] <= MAX_BITS && 1 <= lens[t] <= MAX_BITS
    requires lens[s] < lens[t] || (lens[s] == lens[t] && s < t)
    ensures Pos(lens, s) + Width(lens[s]) <= Pos(lens, t)
  {
    PosIs(lens, s);
    PosIs(lens, t);
    if lens[s] < lens[t] {
      KraftMono(lens, lens[s], lens[t] - 1);
    } else {
      RankMono(lens, lens[s], s, t);
      var r, q := Rank(lens, lens[s], s), Rank(lens, lens[s], t);
      ShlNext(r, MAX_BITS - lens[s]);
      ShlMono(r + 1, q, MAX_BITS - lens[s]);
    }
  }

  /** No bit string starts with the codes of two different symbols. */
  lemma PrefixFree(lens: seq<nat>, s: nat, t: nat, w: nat)
    requires s < |lens| && t < |lens| && 1 <= lens[s] <= MAX_BITS && 1 <= lens[t] <= MAX_BITS
    requires NotOver(lens)
    requires Low(w, lens[s]) == Code(lens, s) && Low(w, lens[t]) == Code(lens, t)
    ensures s == t
  {
    Matches(lens, s, w);
    Matches(lens, t, w);
    if lens[s] < lens[t] || (lens[s] == lens[t] && s < t) {
      Ordered(lens, s, t);
    } else if s != t {
      Ordered(lens, t, s);
    }
  }

  /** In a complete code every bit string starts with the code of a symbol. */
  lemma Covered(lens: seq<nat>, w: nat) returns (s: nat)
    requires Complete(lens)
    ensures s < |lens| && 1 <= lens[s] <= MAX_BITS
    ensures Low(w, lens[s]) == Code(lens, s)
  {
    var v := Rev(MAX_BITS, w);
    RevBound(MAX_BITS, w);
    s := OwnerOf(lens, v, MAX_BITS);
    Matches(lens, s, w);
  }

  lemma {:induction false} OwnerOf(lens: seq<nat>, v: nat, l: nat) returns (s: nat)
    requires l <= MAX_BITS && v < Kraft(lens, l)
    ensures s < |lens| && 1 <= lens[s] <= l
    ensures Pos(lens, s) <= v < Pos(lens, s) + Width(lens[s])
  {
    if v < Kraft(lens, l - 1) {
      s := OwnerOf(lens, v, l - 1);
    } else {
      var d := v - Kraft(lens, l - 1);
      var r := Shr(d, MAX_BITS - l);
      ShrInterval(d, MAX_BITS - l, r);
      ShlMono(Count(lens, l), r, MAX_BITS - l);
      s := SymOfRank(lens, l, r, |lens|);
      PosIs(lens, s);
    }
  }

  /** The DEBUG check of gen_codes: the last code is all ones exactly if the
      lengths are complete. */
  lemma LastCodeAllOnes(lens: seq<nat>)
    ensures FirstCode(lens, MAX_BITS) + Count(lens, MAX_BITS) == Pow2(MAX_BITS) <==> Complete(lens)
  {
    FirstCodePos(lens, MAX_BITS);
  }
}
