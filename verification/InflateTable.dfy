/** inftrees.c: decoding tables for a canonical code.

    inflate_table fills a root table indexed by the next `root` bits of the
    stream, with links to sub-tables for longer codes.  The code being entered,
    `huff`, is held bit-reversed and incremented backwards.  With K the end of
    the part of the code space already entered, huff is always Rev(15, K), and
    the loop's real invariant is that the table decodes everything below K. */
module InflateTable {
  import opened Bits
  import opened Canonical

  datatype CodeType = CODES | LENS | DISTS

  /** One table slot.  A link to a sub-table has op in 1..15. */
  datatype Entry = Entry(op: nat, bits: nat, val: nat)

  /** What a lookup yields: the entry's operation and value, and the bits used. */
  datatype Decoded = Decoded(op: nat, val: nat, used: nat)

  datatype TableResult =
    | Built(table: seq<Entry>, root: nat)
    | InvalidCode    // return -1
    | NoSpace        // return 1

  const INVALID: Entry := Entry(64, 1, 0)
  const NOTHING: Decoded := Decoded(64, 0, 1)

  const ENOUGH: nat := 2048
  const MAXD: nat := 592

  const LBASE: seq<nat> := [
    3, 4, 5, 6, 7, 8, 9, 10, 11, 13, 15, 17, 19, 23, 27, 31,
    35, 43, 51, 59, 67, 83, 99, 115, 131, 163, 195, 227, 258, 0, 0]
  const LEXT: seq<nat> := [
    16, 16, 16, 16, 16, 16, 16, 16, 17, 17, 17, 17, 18, 18, 18, 18,
    19, 19, 19, 19, 20, 20, 20, 20, 21, 21, 21, 21, 16, 201, 196]
  const DBASE: seq<nat> := [
    1, 2, 3, 4, 5, 7, 9, 13, 17, 25, 33, 49, 65, 97, 129, 193,
    257, 385, 513, 769, 1025, 1537, 2049, 3073, 4097, 6145,
    8193, 12289, 16385, 24577, 0, 0]
  const DEXT: seq<nat> := [
    16, 16, 16, 16, 17, 17, 18, 18, 19, 19, 20, 20, 21, 21, 22, 22,
    23, 23, 24, 24, 25, 25, 26, 26, 27, 27,
    28, 28, 29, 29, 64, 64]

  function MaxSymbols(ty: CodeType): nat {
    match ty
    case CODES => 19
    case LENS => 288
    case DISTS => 32
  }

  function SymOp(ty: CodeType, s: nat): (op: nat)
    requires s < MaxSymbols(ty)
    ensures !(1 <= op <= 15)
  {
    match ty
    case CODES => 0
    case LENS => if s < 256 then 0 else if s == 256 then 96 else LEXT[s - 257]
    case DISTS => DEXT[s]
  }

  function SymVal(ty: CodeType, s: nat): nat
    requires s < MaxSymbols(ty)
  {
    match ty
    case CODES => s
    case LENS => if s < 256 then s else if s == 256 then 0 else LBASE[s - 257]
    case DISTS => DBASE[s]
  }

  // ------------------------------------------------------------------- lookups

  predicate IsLink(e: Entry) {
    1 <= e.op <= 15
  }

  /** The root table is there, and every link uses up the root index bits and
      leads to a whole sub-table. */
  predicate Linked(t: seq<Entry>, root: nat) {
    && Pow2(root) <= |t|
    && forall i :: 0 <= i < Pow2(root) && IsLink(t[i]) ==> t[i].bits == root && t[i].val + Pow2(t[i].op) <= |t|
  }

  lemma LowBound(w: nat, n: nat)
    ensures Low(w, n) < Pow2(n)
  {
    SplitAt(w, n);
  }

  /** The lookup of inflate.c:957-972 on a bit buffer holding w. */
  function Lookup(t: seq<Entry>, root: nat, w: nat): Decoded
    requires Linked(t, root)
  {
    LowBound(w, root);
    var e := t[Low(w, root)];
    if IsLink(e) then
      LowBound(Shr(w, e.bits), e.op);
      var f := t[e.val + Low(Shr(w, e.bits), e.op)];
      Decoded(f.op, f.val, e.bits + f.bits)
    else
      Decoded(e.op, e.val, e.bits)
  }

  /** The bit string w starts with the code of s. */
  predicate Starts(lens: seq<nat>, s: nat, w: nat) {
    s < |lens| && lens[s] != 0 && Low(w, lens[s]) == Code(lens, s)
  }

  /** The bit string w starts with no code. */
  ghost predicate Unmatched(lens: seq<nat>, w: nat) {
    forall s: nat :: !Starts(lens, s, w)
  }

  /** The table decodes every bit string as the code says: to the symbol it
      starts with, or to the invalid-code marker if it starts with none. */
  ghost predicate TableFor(t: seq<Entry>, root: nat, ty: CodeType, lens: seq<nat>) {
    && |lens| <= MaxSymbols(ty)
    && Linked(t, root)
    && (forall s: nat, w: nat :: Starts(lens, s, w) ==>
          Lookup(t, root, w) == Decoded(SymOp(ty, s), SymVal(ty, s), lens[s]))
    && (forall w: nat :: Unmatched(lens, w) ==> Lookup(t, root, w) == NOTHING)
  }

  /** The same for the symbols whose interval ends at or below K. */
  ghost predicate DecodesBelow(t: seq<Entry>, root: nat, ty: CodeType, lens: seq<nat>, K: nat)
    requires |lens| <= MaxSymbols(ty) && LensOk(lens)
  {
    && Linked(t, root)
    && forall s: nat, w: nat :: Starts(lens, s, w) && Pos(lens, s) + Width(lens[s]) <= K ==>
         Lookup(t, root, w) == Decoded(SymOp(ty, s), SymVal(ty, s), lens[s])
  }

  // ------------------------------------------------------- counting and sorting

  /** Where the symbols of length l begin in the sorted order. */
  function Offset(lens: seq<nat>, l: nat): (r: nat) {
    if l <= 1 then 0 else Offset(lens, l - 1) + Count(lens, l - 1)
  }

  function Index(lens: seq<nat>, s: nat): (r: nat)
    requires s < |lens|
  {
    Offset(lens, lens[s]) + Rank(lens, lens[s], s)
  }

  lemma {:induction false} OffsetMono(lens: seq<nat>, a: nat, b: nat)
    requires 1 <= a <= b
    ensures Offset(lens, a) <= Offset(lens, b)
  {
    if a == b {
    } else {
      OffsetMono(lens, a, b - 1);
    }
  }

  lemma IndexBefore(lens: seq<nat>, s: nat, t: nat)
    requires s < |lens| && t < |lens| && lens[s] != 0 && lens[t] != 0
    requires lens[s] < lens[t] || (lens[s] == lens[t] && s < t)
    ensures Index(lens, s) < Index(lens, t)
  {
    RankBound(lens, s);
    if lens[s] < lens[t] {
      OffsetMono(lens, lens[s] + 1, lens[t]);
    } else {
      RankMono(lens, lens[s], s, t);
    }
  }

  /** Sorting by length keeps symbols apart. */
  lemma IndexInjective(lens: seq<nat>, s: nat, t: nat)
    requires s < |lens| && t < |lens| && lens[s] != 0 && lens[t] != 0
    requires Index(lens, s) == Index(lens, t)
    ensures s == t
  {
    if s != t {
      if lens[s] < lens[t] || (lens[s] == lens[t] && s < t) {
        IndexBefore(lens, s, t);
      } else {
        IndexBefore(lens, t, s);
      }
    }
  }

  /** Number of symbols of length 1..l among the first n. */
  function Coded(lens: seq<nat>, l: nat, n: nat): (r: nat)
    requires n <= |lens|
    ensures r <= n
  {
    if n == 0 then 0 else Coded(lens, l, n - 1) + if 1 <= lens[n - 1] <= l then 1 else 0
  }

  lemma {:induction false} CodedStep(lens: seq<nat>, l: nat, n: nat)
    requires n <= |lens|
    ensures Coded(lens, l + 1, n) == Coded(lens, l, n) + Rank(lens, l + 1, n)
    ensures Coded(lens, 0, n) == 0
  {
    if n == 0 {
    } else {
      CodedStep(lens, l, n - 1);
    }
  }

  lemma {:induction false} OffsetIsCoded(lens: seq<nat>, l: nat)
    ensures Offset(lens, l + 1) == Coded(lens, l, |lens|)
  {
    CodedStep(lens, if l == 0 then 0 else l - 1, |lens|);
    if l == 0 {
    } else {
      OffsetIsCoded(lens, l - 1);
    }
  }

  /** The sorted position of every symbol fits the work area. */
  lemma IndexBound(lens: seq<nat>, s: nat)
    requires s < |lens| && lens[s] != 0
    ensures Index(lens, s) < |lens|
  {
    RankBound(lens, s);
    OffsetIsCoded(lens, lens[s]);
  }

  method CountLengths(lens: seq<nat>) returns (count: array<nat>)
    requires LensOk(lens)
    ensures fresh(count) && count.Length == MAX_BITS + 1
    ensures forall l :: 0 <= l <= MAX_BITS ==> count[l] == Count(lens, l)
  {
    count := new nat[MAX_BITS + 1](_ => 0);
    for sym := 0 to |lens|
      invariant forall l :: 0 <= l <= MAX_BITS ==> count[l] == Rank(lens, l, sym)
    {
      count[lens[sym]] := count[lens[sym]] + 1;
    }
  }

  lemma OffsetNext(lens: seq<nat>, len: nat)
    requires len >= 1
    ensures Offset(lens, len + 1) == Offset(lens, len) + Count(lens, len)
  {
  }

  lemma NoOffset(lens: seq<nat>)
    ensures Offset(lens, 1) == 0
  {
  }

  method Offsets(lens: seq<nat>, count: array<nat>) returns (offs: array<nat>)
    requires count.Length == MAX_BITS + 1
    requires forall l :: 0 <= l <= MAX_BITS ==> count[l] == Count(lens, l)
    ensures fresh(offs) && offs.Length == MAX_BITS + 1
    ensures forall l :: 1 <= l <= MAX_BITS ==> offs[l] == Offset(lens, l)
  {
    hide Offset, Count;
    offs := new nat[MAX_BITS + 1](_ => 0);
    NoOffset(lens);
    for len := 1 to MAX_BITS
      invariant forall l :: 1 <= l <= len ==> offs[l] == Offset(lens, l)
    {
      OffsetNext(lens, len);
      offs[len + 1] := offs[len] + count[len];
    }
  }

  /** The first n symbols stand where sorting by length puts them. */
  ghost predicate Placed(lens: seq<nat>, work: seq<nat>, n: nat)
    requires n <= |lens|
  {
    forall s :: 0 <= s < n && lens[s] != 0 ==> Index(lens, s) < |work| && work[Index(lens, s)] == s
  }

  lemma PlaceNone(lens: seq<nat>, work: seq<nat>)
    ensures Placed(lens, work, 0)
  {
  }

  lemma PlaceNext(lens: seq<nat>, work: seq<nat>, n: nat)
    requires n < |lens| && |work| == |lens| && Placed(lens, work, n)
    ensures lens[n] != 0 ==> Index(lens, n) < |work| && Placed(lens, work[Index(lens, n) := n], n + 1)
    ensures lens[n] == 0 ==> Placed(lens, work, n + 1)
  {
    if lens[n] != 0 {
      IndexBound(lens, n);
      var work' := work[Index(lens, n) := n];
      forall s | 0 <= s < n + 1 && lens[s] != 0
        ensures Index(lens, s) < |work'| && work'[Index(lens, s)] == s
      {
        if s < n && Index(lens, s) == Index(lens, n) {
          IndexInjective(lens, s, n);
        }
      }
    }
  }

  method SortSymbols(lens: seq<nat>, count: array<nat>) returns (work: array<nat>)
    requires LensOk(lens) && count.Length == MAX_BITS + 1
    requires forall l :: 0 <= l <= MAX_BITS ==> count[l] == Count(lens, l)
    ensures fresh(work) && work.Length == |lens| && Placed(lens, work[..], |lens|)
  {
    hide Placed, Offset, Count;
    var offs := Offsets(lens, count);
    work := new nat[|lens|](_ => 0);
    PlaceNone(lens, work[..]);
    for sym := 0 to |lens|
      invariant forall l :: 1 <= l <= MAX_BITS ==> offs[l] == Offset(lens, l) + Rank(lens, l, sym)
      invariant Placed(lens, work[..], sym)
    {
      PlaceNext(lens, work[..], sym);
      if lens[sym] != 0 {
        ghost var was := work[..];
        work[offs[lens[sym]]] := sym;
        assert work[..] == was[Index(lens, sym) := sym];
        offs[lens[sym]] := offs[lens[sym]] + 1;
      }
    }
  }

  // --------------------------------------------- the backwards increment of huff

  /** Adds one to a bit-reversed code: if huff is the reversal of c, the result
      is the reversal of c + 1, and 0 when c was all ones.  `incr` is held as its
      exponent k, with -1 for incr == 0. */
  method BackwardIncrement(huff: nat, len: nat, ghost c: nat) returns (next: nat)
    requires len >= 1 && huff == Rev(len, c)
    ensures next == Rev(len, c + 1)
  {
    var k: int := len - 1;
    ghost var x := c;
    RevBound(len, c);
    LowSmall(huff, len);
    while k >= 0 && Bit(huff, k) == 1
      invariant -1 <= k < len
      invariant Low(huff, k + 1) == Rev(k + 1, x)
      invariant Rev(len, c + 1) == Rev(k + 1, x + 1)
    {
      IncrementStep(huff, k, x);
      x := x / 2;
      k := k - 1;
    }
    if k >= 0 {
      IncrementStep(huff, k, x);
      next := Low(huff, k) + Pow2(k);
    } else {
      next := 0;
    }
  }

  lemma TopBit(v: nat, k: nat)
    ensures Low(v, k + 1) == Low(v, k) + if Bit(v, k) == 1 then Pow2(k) else 0
  {
    LowAdd(v, k, 1);
    assert Low(Shr(v, k), 1) == Bit(v, k);
    ShlPow2(0, k);
    ShlZero(k);
  }

  lemma IncrementStep(huff: nat, k: nat, x: nat)
    requires Low(huff, k + 1) == Rev(k + 1, x)
    ensures Bit(huff, k) == x % 2
    ensures Low(huff, k) == Rev(k, x / 2)
    ensures Rev(k + 1, x + 1) == if x % 2 == 1 then Rev(k, x / 2 + 1) else Pow2(k) + Low(huff, k)
  {
    hide Low, Shr, Rev, Bit, Pow2;
    TopBit(huff, k);
    LowBound(huff, k);
    RevBound(k, x / 2);
    RevLow(k + 1, x);
    SamePair(Pow2(k), Bit(huff, k), Low(huff, k), x % 2, Rev(k, x / 2));
    RevLow(k + 1, x + 1);
  }

  lemma SamePair(p: nat, a: nat, lo: nat, b: nat, hi: nat)
    requires a <= 1 && b <= 1 && lo < p && hi < p
    requires lo + (if a == 1 then p else 0) == (if b == 1 then p else 0) + hi
    ensures a == b && lo == hi
  {
  }

  // ------------------------------------------------------------ filling the table

  /** t' is t with e in the slots of the table at next whose low b index bits are base. */
  ghost predicate Filled(t: seq<Entry>, t': seq<Entry>, next: nat, curr: nat, b: nat, base: nat, e: Entry) {
    && |t'| == |t|
    && forall i :: 0 <= i < |t| ==>
         t'[i] == if next <= i < next + Pow2(curr) && Low(i - next, b) == base then e else t[i]
  }

  /** Copies e to the slots of the table at next whose low b index bits are base. */
  method Replicate(t: seq<Entry>, next: nat, curr: nat, b: nat, base: nat, e: Entry) returns (t': seq<Entry>)
    requires b <= curr && base < Pow2(b) && next + Pow2(curr) <= |t|
    ensures Filled(t, t', next, curr, b, base, e)
  {
    t' := t;
    var fill := Pow2(curr);
    ghost var m := Pow2(curr - b);
    ShlPow2(curr - b, b);
    while fill != 0
      invariant fill == Shl(m, b) && fill <= Pow2(curr)
      invariant |t'| == |t|
      invariant forall i :: 0 <= i < |t| ==>
                  t'[i] == if next + fill <= i < next + Pow2(curr) && Low(i - next, b) == base then e else t[i]
      decreases fill
    {
      if m == 0 {
        ShlZero(b);
      }
      ghost var was := t';
      ghost var above := fill;
      m := m - 1;
      ShlNext(m, b);
      fill := fill - Pow2(b);
      t' := t'[next + base + fill := e];
      forall i | 0 <= i < |t|
        ensures t'[i] == if next + fill <= i < next + Pow2(curr) && Low(i - next, b) == base then e else t[i]
      {
        if next + fill <= i < next + above {
          ShlLow(m, i - next - fill, b);
        }
      }
    }
  }

  /** The root slot of a bit string, and of a position in the code space. */
  lemma SlotOf(w: nat, root: nat)
    requires root <= MAX_BITS
    ensures Low(w, root) == Rev(root, Shr(Rev(MAX_BITS, w), MAX_BITS - root))
  {
    RevInvolution(MAX_BITS, w);
    LowLow(w, root, MAX_BITS);
    RevPrefix(MAX_BITS, root, Rev(MAX_BITS, w));
  }

  /** Rejoining the root index and the rest of a code. */
  lemma JoinLow(w: nat, h: nat, root: nat, len: nat)
    requires root <= len && h < Pow2(len)
    ensures Low(w, len) == h <==> Low(w, root) == Low(h, root) && Low(Shr(w, root), len - root) == Shr(h, root)
  {
    LowSmall(h, len);
    LowLow(w, root, len);
    ShrLow(w, root, len);
    SplitAt(h, root);
    LowAdd(w, root, len - root);
  }

  /** While only the root table is being filled. */
  predicate RootPhase(t: seq<Entry>, root: nat) {
    |t| == Pow2(root) && forall i :: 0 <= i < |t| ==> !IsLink(t[i])
  }

  /** While the sub-table at next, with curr index bits and linked from root slot
      low, is being filled: older sub-tables lie below it. */
  predicate SubPhase(t: seq<Entry>, root: nat, next: nat, curr: nat, low: nat) {
    && Pow2(root) <= next && next + Pow2(curr) == |t|
    && low < Pow2(root) && 1 <= curr <= 15
    && t[low] == Entry(curr, root, next)
    && forall i :: 0 <= i < Pow2(root) && i != low && IsLink(t[i]) ==>
         t[i].bits == root && Pow2(root) <= t[i].val && t[i].val + Pow2(t[i].op) <= next
  }

  ghost predicate IsSym(lens: seq<nat>, s: nat, len: nat, K: nat) {
    && s < |lens| && LensOk(lens) && NotOver(lens)
    && 1 <= len && lens[s] == len && Pos(lens, s) == K
  }

  /** A symbol entered earlier does not share a bit string with s. */
  lemma Earlier(lens: seq<nat>, s: nat, s': nat, w: nat)
    requires s < |lens| && s' < |lens| && LensOk(lens) && NotOver(lens)
    requires Starts(lens, s', w) && lens[s] != 0
    requires Pos(lens, s') + Width(lens[s']) <= Pos(lens, s)
    ensures Low(w, lens[s]) != Code(lens, s)
  {
    if Low(w, lens[s]) == Code(lens, s) {
      PrefixFree(lens, s, s', w);
    }
  }

  lemma ExtendBelow(lens: seq<nat>, s: nat, s': nat, K: nat)
    requires s < |lens| && IsSym(lens, s, lens[s], K) && s' < |lens| && lens[s'] != 0
    requires Pos(lens, s') + Width(lens[s']) <= K + Width(lens[s])
    ensures s' == s || Pos(lens, s') + Width(lens[s']) <= K
  {
    if s' != s {
      if lens[s'] < lens[s] || (lens[s'] == lens[s] && s' < s) {
        Ordered(lens, s', s);
      } else {
        Ordered(lens, s, s');
      }
    }
  }

  lemma FillRoot(t: seq<Entry>, t': seq<Entry>, root: nat, ty: CodeType, lens: seq<nat>, s: nat, K: nat)
    requires |lens| <= MaxSymbols(ty) && root <= MAX_BITS
    requires s < |lens| && IsSym(lens, s, lens[s], K) && lens[s] <= root
    requires RootPhase(t, root) && DecodesBelow(t, root, ty, lens, K)
    requires Filled(t, t', 0, root, lens[s], Code(lens, s), Entry(SymOp(ty, s), lens[s], SymVal(ty, s)))
    ensures RootPhase(t', root) && DecodesBelow(t', root, ty, lens, K + Width(lens[s]))
  {
    forall s': nat, w: nat | Starts(lens, s', w) && Pos(lens, s') + Width(lens[s']) <= K + Width(lens[s])
      ensures Lookup(t', root, w) == Decoded(SymOp(ty, s'), SymVal(ty, s'), lens[s'])
    {
      LowBound(w, root);
      LowLow(w, lens[s], root);
      ExtendBelow(lens, s, s', K);
      if s' != s {
        Earlier(lens, s, s', w);
      }
    }
  }

  /** A lookup reads two slots at most. */
  lemma LookupSame(t: seq<Entry>, t': seq<Entry>, root: nat, w: nat)
    requires Linked(t, root) && Linked(t', root) && |t| <= |t'|
    requires Low(w, root) < Pow2(root) && t'[Low(w, root)] == t[Low(w, root)]
    requires var e := t[Low(w, root)];
             IsLink(e) ==>
               (LowBound(Shr(w, e.bits), e.op); var i := e.val + Low(Shr(w, e.bits), e.op); t'[i] == t[i])
    ensures Lookup(t', root, w) == Lookup(t, root, w)
  {
    var e := t[Low(w, root)];
    LowBound(Shr(w, e.bits), e.op);
  }

  lemma FillSubAt(t: seq<Entry>, t': seq<Entry>, root: nat, next: nat, curr: nat, h: nat, len: nat, e: Entry, w: nat)
    requires root < len <= root + curr && h < Pow2(len)
    requires SubPhase(t, root, next, curr, Low(h, root)) && SubPhase(t', root, next, curr, Low(h, root))
    requires Linked(t, root) && Linked(t', root)
    requires Filled(t, t', next, curr, len - root, Shr(h, root), e)
    ensures Low(w, len) == h ==> Lookup(t', root, w) == Decoded(e.op, e.val, root + e.bits)
    ensures Low(w, len) != h ==> Lookup(t', root, w) == Lookup(t, root, w)
  {
    hide Low, Shr, Pow2;
    LowBound(w, root);
    JoinLow(w, h, root, len);
    LowBound(Shr(w, root), curr);
    LowLow(Shr(w, root), len - root, curr);
    if Low(w, len) != h {
      var f := t[Low(w, root)];
      LowBound(Shr(w, f.bits), f.op);
      LookupSame(t, t', root, w);
    }
  }

  lemma SubLinked(t: seq<Entry>, root: nat, next: nat, curr: nat, low: nat)
    requires SubPhase(t, root, next, curr, low)
    ensures Linked(t, root)
  {
  }

  lemma FillSub(t: seq<Entry>, t': seq<Entry>, root: nat, next: nat, curr: nat, low: nat,
                ty: CodeType, lens: seq<nat>, s: nat, K: nat)
    requires |lens| <= MaxSymbols(ty) && 1 <= root <= MAX_BITS
    requires s < |lens| && IsSym(lens, s, lens[s], K) && root < lens[s] <= root + curr
    requires SubPhase(t, root, next, curr, low) && DecodesBelow(t, root, ty, lens, K)
    requires low == Low(Code(lens, s), root)
    requires Filled(t, t', next, curr, lens[s] - root, Shr(Code(lens, s), root),
                    Entry(SymOp(ty, s), lens[s] - root, SymVal(ty, s)))
    ensures SubPhase(t', root, next, curr, low) && DecodesBelow(t', root, ty, lens, K + Width(lens[s]))
  {
    hide Low, Shr, Pow2, Rev, Shl, Rank, Lookup;
    var len, h := lens[s], Code(lens, s);
    RevBound(len, SymCode(lens, s));
    assert SubPhase(t', root, next, curr, low);
    SubLinked(t', root, next, curr, low);
    forall s': nat, w: nat | Starts(lens, s', w) && Pos(lens, s') + Width(lens[s']) <= K + Width(len)
      ensures Lookup(t', root, w) == Decoded(SymOp(ty, s'), SymVal(ty, s'), lens[s'])
    {
      FillSubAt(t, t', root, next, curr, h, len, Entry(SymOp(ty, s), len - root, SymVal(ty, s)), w);
      ExtendBelow(lens, s, s', K);
      if s' != s {
        Earlier(lens, s, s', w);
      }
    }
  }

  /** Bit strings below slot q do not index it. */
  lemma BelowSlot(w: nat, root: nat, q: nat)
    requires root <= MAX_BITS && q < Pow2(root)
    requires Rev(MAX_BITS, w) < Shl(q, MAX_BITS - root)
    ensures Low(w, root) != Rev(root, q)
  {
    var v := Rev(MAX_BITS, w);
    var p := Shr(v, MAX_BITS - root);
    SlotOf(w, root);
    RevBound(MAX_BITS, w);
    ShrBound(v, MAX_BITS, MAX_BITS - root);
    LowSmall(p, root);
    LowSmall(q, root);
    if Rev(root, p) == Rev(root, q) {
      RevInjective(root, p, q);
      ShrInterval(v, MAX_BITS - root, q);
    }
  }

  /** Opening a sub-table disturbs no code entered so far: the root slot it takes
      belongs to codes at or above K. */
  lemma OpenSub(t: seq<Entry>, t': seq<Entry>, root: nat, curr: nat, q: nat,
                ty: CodeType, lens: seq<nat>, K: nat)
    requires |lens| <= MaxSymbols(ty) && 1 <= root <= MAX_BITS && 1 <= curr <= 15
    requires LensOk(lens) && NotOver(lens)
    requires DecodesBelow(t, root, ty, lens, K) && K == Shl(q, MAX_BITS - root)
    requires forall i :: 0 <= i < Pow2(root) && IsLink(t[i]) ==> Pow2(root) <= t[i].val
    requires |t'| == |t| + Pow2(curr) && q < Pow2(root)
    requires Rev(root, q) < Pow2(root)
    requires t'[Rev(root, q)] == Entry(curr, root, |t|)
    requires forall i :: 0 <= i < |t| && i != Rev(root, q) ==> t'[i] == t[i]
    ensures SubPhase(t', root, |t|, curr, Rev(root, q)) && DecodesBelow(t', root, ty, lens, K)
  {
    var low := Rev(root, q);
    assert SubPhase(t', root, |t|, curr, low);
    SubLinked(t', root, |t|, curr, low);
    forall s: nat, w: nat | Starts(lens, s, w) && Pos(lens, s) + Width(lens[s]) <= K
      ensures Lookup(t', root, w) == Decoded(SymOp(ty, s), SymVal(ty, s), lens[s])
    {
      OpenSubAt(t, t', root, q, lens, s, w);
    }
  }

  lemma OpenSubAt(t: seq<Entry>, t': seq<Entry>, root: nat, q: nat, lens: seq<nat>, s: nat, w: nat)
    requires root <= MAX_BITS && LensOk(lens) && NotOver(lens)
    requires Linked(t, root) && Linked(t', root) && |t| <= |t'|
    requires q < Pow2(root)
    requires forall i :: 0 <= i < |t| && i != Rev(root, q) ==> t'[i] == t[i]
    requires Rev(root, q) < Pow2(root)
    requires forall i :: 0 <= i < Pow2(root) && IsLink(t[i]) ==> t[i].val >= Pow2(root)
    requires Starts(lens, s, w) && Pos(lens, s) + Width(lens[s]) <= Shl(q, MAX_BITS - root)
    ensures Lookup(t', root, w) == Lookup(t, root, w)
  {
    hide Low, Shr, Pow2, Rev, Shl, Rank;
    LowBound(w, root);
    Matches(lens, s, w);
    BelowSlot(w, root, q);
    var e := t[Low(w, root)];
    LowBound(Shr(w, e.bits), e.op);
    LookupSame(t, t', root, w);
  }

  // ------------------------------------------------------------- sub-table sizes

  /** Every symbol that starts below hi has length at most bound. */
  ghost predicate Fits(lens: seq<nat>, hi: nat, bound: nat)
    requires LensOk(lens)
  {
    forall s :: 0 <= s < |lens| && lens[s] != 0 && Pos(lens, s) < hi ==> lens[s] <= bound
  }

  lemma FitsUpTo(lens: seq<nat>, hi: nat, bound: nat)
    requires LensOk(lens) && bound <= MAX_BITS
    requires hi <= Kraft(lens, bound) || forall s :: 0 <= s < |lens| ==> lens[s] <= bound
    ensures Fits(lens, hi, bound)
  {
    forall s | 0 <= s < |lens| && lens[s] != 0 && Pos(lens, s) < hi
      ensures lens[s] <= bound
    {
      if lens[s] > bound {
        PosIs(lens, s);
        KraftMono(lens, bound, lens[s] - 1);
      }
    }
  }

  /** The least length from l on, up to max, at which the codes reach hi. */
  function SlotEnd(lens: seq<nat>, hi: nat, max: nat, l: nat): (r: nat)
    requires max <= MAX_BITS
    ensures l <= max ==> l <= r <= max
    decreases max - l
  {
    if l >= max then max else if Kraft(lens, l) >= hi then l else SlotEnd(lens, hi, max, l + 1)
  }

  lemma {:induction false} SlotEndSkip(lens: seq<nat>, hi: nat, max: nat, a: nat, b: nat)
    requires 1 <= a <= b <= max <= MAX_BITS && Kraft(lens, b - 1) < hi
    ensures SlotEnd(lens, hi, max, a) == SlotEnd(lens, hi, max, b)
    decreases b - a
  {
    if a == b {
    } else {
      KraftMono(lens, a, b - 1);
      SlotEndSkip(lens, hi, max, a + 1, b);
    }
  }

  /** Index bits of the sub-table for root slot q. */
  function SlotBits(lens: seq<nat>, root: nat, max: nat, q: nat): (r: nat)
    requires root < max <= MAX_BITS
    ensures 1 <= r <= MAX_BITS
  {
    SlotEnd(lens, Shl(q + 1, MAX_BITS - root), max, root + 1) - root
  }

  /** Slots taken by the sub-tables of root slots lo..hi-1. */
  function SubSize(lens: seq<nat>, root: nat, max: nat, lo: nat, hi: nat): (r: nat)
    requires root < max <= MAX_BITS
  {
    if hi <= lo then 0 else SubSize(lens, root, max, lo, hi - 1) + Pow2(SlotBits(lens, root, max, hi - 1))
  }

  lemma {:induction false} SubSizeMono(lens: seq<nat>, root: nat, max: nat, lo: nat, a: nat, b: nat)
    requires root < max <= MAX_BITS && a <= b
    ensures SubSize(lens, root, max, lo, a) <= SubSize(lens, root, max, lo, b)
    decreases b
  {
    if a == b {
    } else {
      SubSizeMono(lens, root, max, lo, a, b - 1);
    }
  }

  /** Entries in the root table and all sub-tables. */
  function TableSize(lens: seq<nat>, root: nat, max: nat): (r: nat)
    requires max <= MAX_BITS
  {
    Pow2(root) + if root >= max then 0
                 else SubSize(lens, root, max, Shr(Kraft(lens, root), MAX_BITS - root), Pow2(root))
  }

  /** The room left, one level deeper. */
  lemma NextLevel(lens: seq<nat>, l: nat, left: nat, count: nat, p: nat, end: nat)
    requires l < MAX_BITS && count < left && p + Shl(left, MAX_BITS - l) == end
             && p + Shl(count, MAX_BITS - l) == Kraft(lens, l)
    ensures Kraft(lens, l) + Shl(2 * (left - count), MAX_BITS - l - 1) == end && Kraft(lens, l) < end
    ensures Kraft(lens, l) + Shl(Count(lens, l + 1), MAX_BITS - l - 1) == Kraft(lens, l + 1)
  {
    hide Shl, Kraft, Count;
    ShlAdd(left - count, count, MAX_BITS - l);
    ShlPositive(left - count, MAX_BITS - l);
    KraftStep(lens, l + 1);
    ShlDouble(left - count, MAX_BITS - l - 1);
  }

  /** Looks ahead in the remaining length counts for the size of the sub-table
      that starts at K: large enough for all codes in its root slot. */
  method SubTableBits(lens: seq<nat>, count: array<nat>, len: nat, root: nat, max: nat, ghost K: nat)
    returns (curr: nat)
    requires LensOk(lens) && count.Length == MAX_BITS + 1
    requires 1 <= root < len <= max <= MAX_BITS
    requires forall l :: len < l <= MAX_BITS ==> count[l] == Count(lens, l)
    requires K + Shl(count[len], MAX_BITS - len) == Kraft(lens, len) && Kraft(lens, len - 1) <= K
    requires forall s :: 0 <= s < |lens| ==> lens[s] <= max
    ensures 1 <= curr && len <= root + curr <= max
    ensures root + curr == SlotEnd(lens, K + Pow2(MAX_BITS - root), max, root + 1)
    ensures Fits(lens, K + Pow2(MAX_BITS - root), root + curr)
  {
    hide Shl, Kraft, Pow2, Fits, Count;
    SlotEndSkip(lens, K + Pow2(MAX_BITS - root), max, root + 1, len);
    curr := len - root;
    var left: int := Pow2(curr);
    ghost var p: nat := K;
    ShlPow2(curr, MAX_BITS - len);
    while curr + root < max
      invariant len <= curr + root <= max && left > 0
      invariant p + Shl(left, MAX_BITS - root - curr) == K + Pow2(MAX_BITS - root)
      invariant p + Shl(count[curr + root], MAX_BITS - root - curr) == Kraft(lens, curr + root)
      invariant SlotEnd(lens, K + Pow2(MAX_BITS - root), max, root + 1)
             == SlotEnd(lens, K + Pow2(MAX_BITS - root), max, root + curr)
      decreases max - curr
    {
      var l := curr + root;
      if left <= count[l] {
        ShlMono(left, count[l], MAX_BITS - l);
        break;
      }
      NextLevel(lens, l, left, count[l], p, K + Pow2(MAX_BITS - root));
      left := left - count[l];
      p := Kraft(lens, l);
      curr := curr + 1;
      left := 2 * left;
    }
    FitsUpTo(lens, K + Pow2(MAX_BITS - root), root + curr);
  }

  // ------------------------------------------------------------- the order of codes

  /** The symbol entered at sorted position (len, r). */
  lemma WorkAt(lens: seq<nat>, work: seq<nat>, len: nat, r: nat)
    requires |work| == |lens| && Placed(lens, work, |lens|)
    requires len >= 1 && r < Count(lens, len)
    ensures Offset(lens, len) + r < |work|
    ensures var s := work[Offset(lens, len) + r]; s < |lens| && lens[s] == len && Rank(lens, len, s) == r
  {
    var s := SymOfRank(lens, len, r, |lens|);
    assert Index(lens, s) == Offset(lens, len) + r;
  }

  /** The next length in use after len. */
  lemma {:induction false} NextLength(lens: seq<nat>, len: nat, max: nat) returns (l: nat)
    requires len < max <= MAX_BITS && Count(lens, max) > 0
    ensures len < l <= max && Count(lens, l) > 0
    ensures Offset(lens, l) == Offset(lens, len + 1) && Kraft(lens, l - 1) == Kraft(lens, len)
    decreases max - len
  {
    if Count(lens, len + 1) > 0 {
      l := len + 1;
    } else {
      l := NextLength(lens, len + 1, max);
      ShlZero(MAX_BITS - len - 1);
    }
  }

  /** Going past the last code of a length ends its part of the code space. */
  lemma EndOfLength(lens: seq<nat>, len: nat)
    requires 1 <= len <= MAX_BITS
    ensures Shl(FirstCode(lens, len) + Count(lens, len), MAX_BITS - len) == Kraft(lens, len)
  {
    FirstCodePos(lens, len);
    ShlAdd(FirstCode(lens, len), Count(lens, len), MAX_BITS - len);
  }

  lemma RemainingOfLength(lens: seq<nat>, len: nat, r: nat)
    requires 1 <= len <= MAX_BITS && r <= Count(lens, len)
    ensures Shl(FirstCode(lens, len) + r, MAX_BITS - len) + Shl(Count(lens, len) - r, MAX_BITS - len)
         == Kraft(lens, len)
    ensures Kraft(lens, len - 1) <= Shl(FirstCode(lens, len) + r, MAX_BITS - len)
  {
    EndOfLength(lens, len);
    FirstCodePos(lens, len);
    ShlMono(FirstCode(lens, len), FirstCode(lens, len) + r, MAX_BITS - len);
    ShlAdd(FirstCode(lens, len) + r, Count(lens, len) - r, MAX_BITS - len);
  }

  /** Stepping past code c of length len either stays in the same root slot or
      lands exactly on the start of a slot. */
  lemma SlotStep(c: nat, len: nat, root: nat)
    requires len <= MAX_BITS && root <= MAX_BITS
    ensures var K, K' := Shl(c, MAX_BITS - len), Shl(c + 1, MAX_BITS - len);
            var q, q' := Shr(K, MAX_BITS - root), Shr(K', MAX_BITS - root);
            && (K' == Shl(q', MAX_BITS - root) || (len > root && q' == q))
            && (len > root && q' != q ==> q' == q + 1)
  {
    hide Low, Shr, Shl;
    if len <= root {
      ShlShl(c + 1, root - len, MAX_BITS - root);
      ShlLow(Shl(c + 1, root - len), 0, MAX_BITS - root);
    } else {
      var d, m := len - root, MAX_BITS - len;
      ShlLow(c, 0, m);
      ShlLow(c + 1, 0, m);
      ShrShr(Shl(c, m), m, d);
      ShrShr(Shl(c + 1, m), m, d);
      SplitAt(c, d);
      var q := Shr(c, d);
      ShlNext(q, d);
      if Low(c, d) + 1 < Pow2(d) {
        ShlLow(q, Low(c, d) + 1, d);
      } else {
        ShlLow(q + 1, 0, d);
        ShlShl(q + 1, d, m);
      }
    }
  }

  // ------------------------------------------------------------ the table builder

  /** Where the next code of length len, starting at K, is to be entered. */
  ghost predicate Phase(t: seq<Entry>, root: nat, next: nat, curr: nat, drop: nat, low: int,
                        lens: seq<nat>, len: nat, K: nat)
    requires LensOk(lens) && root <= MAX_BITS
  {
    if len <= root then
      drop == 0 && next == 0 && curr == root && low == -1 && RootPhase(t, root)
    else
      var q := Shr(K, MAX_BITS - root);
      && drop == root && low == Rev(root, q) && SubPhase(t, root, next, curr, low)
      && Fits(lens, Shl(q + 1, MAX_BITS - root), root + curr)
  }

  lemma CodeIsHuff(lens: seq<nat>, s: nat)
    requires s < |lens| && 1 <= lens[s] <= MAX_BITS && NotOver(lens)
    ensures Code(lens, s) == Rev(MAX_BITS, Pos(lens, s)) < Pow2(lens[s])
  {
    RevShift(lens[s], MAX_BITS - lens[s], SymCode(lens, s));
    RevBound(lens[s], SymCode(lens, s));
  }

  /** The slots Replicate may touch exist. */
  lemma FillRoom(t: seq<Entry>, root: nat, next: nat, curr: nat, drop: nat, low: int,
                 lens: seq<nat>, s: nat, K: nat)
    requires s < |lens| && IsSym(lens, s, lens[s], K) && 1 <= root <= MAX_BITS
    requires Phase(t, root, next, curr, drop, low, lens, lens[s], K)
    ensures drop < lens[s] <= drop + curr && next + Pow2(curr) <= |t|
    ensures Shr(Rev(MAX_BITS, K), drop) < Pow2(lens[s] - drop)
  {
    hide Low, Shr, Pow2, Rev, Shl, Rank, Kraft;
    CodeIsHuff(lens, s);
    ShrBound(Code(lens, s), lens[s], drop);
    ShrInterval(K, MAX_BITS - root, Shr(K, MAX_BITS - root));
    ShlNext(Shr(K, MAX_BITS - root), MAX_BITS - root);
  }

  lemma FillStep(t: seq<Entry>, t': seq<Entry>, root: nat, next: nat, curr: nat, drop: nat, low: int,
                 ty: CodeType, lens: seq<nat>, s: nat, K: nat)
    requires |lens| <= MaxSymbols(ty) && 1 <= root <= MAX_BITS
    requires s < |lens| && IsSym(lens, s, lens[s], K) && drop < lens[s]
    requires Phase(t, root, next, curr, drop, low, lens, lens[s], K) && DecodesBelow(t, root, ty, lens, K)
    requires Filled(t, t', next, curr, lens[s] - drop, Shr(Rev(MAX_BITS, K), drop),
                    Entry(SymOp(ty, s), lens[s] - drop, SymVal(ty, s)))
    ensures Phase(t', root, next, curr, drop, low, lens, lens[s], K)
    ensures DecodesBelow(t', root, ty, lens, K + Width(lens[s]))
  {
    hide Low, Shr, Pow2, Rev, Shl, Rank, DecodesBelow, RootPhase, SubPhase, Filled, Fits;
    CodeIsHuff(lens, s);
    FillRoom(t, root, next, curr, drop, low, lens, s, K);
    if lens[s] <= root {
      ShrNone(Code(lens, s));
      FillRoot(t, t', root, ty, lens, s, K);
    } else {
      RevPrefix(MAX_BITS, root, K);
      FillSub(t, t', root, next, curr, low, ty, lens, s, K);
    }
  }

  lemma ShrNone(v: nat)
    ensures Shr(v, 0) == v
  {
  }

  /** Without a new root slot, the phase carries over to the next code. */
  lemma SamePhase(t: seq<Entry>, root: nat, next: nat, curr: nat, drop: nat, low: int,
                  lens: seq<nat>, len: nat, c: nat, len': nat)
    requires LensOk(lens) && 1 <= root <= MAX_BITS && 1 <= len <= len' <= MAX_BITS
    requires Phase(t, root, next, curr, drop, low, lens, len, Shl(c, MAX_BITS - len))
    requires Shl(c + 1, MAX_BITS - len) < Pow2(MAX_BITS)
    requires len' <= root || Low(Rev(MAX_BITS, Shl(c + 1, MAX_BITS - len)), root) == low
    ensures Phase(t, root, next, curr, drop, low, lens, len', Shl(c + 1, MAX_BITS - len))
  {
    hide Low, Shr, Pow2, Rev, Shl, Rank, Kraft, SubPhase, RootPhase, Fits;
    if len' > root {
      var K, K' := Shl(c, MAX_BITS - len), Shl(c + 1, MAX_BITS - len);
      var q, q' := Shr(K, MAX_BITS - root), Shr(K', MAX_BITS - root);
      RevPrefix(MAX_BITS, root, K');
      assert len > root;
      ShlMono(c, c + 1, MAX_BITS - len);
      ShrBound(K, MAX_BITS, MAX_BITS - root);
      ShrBound(K', MAX_BITS, MAX_BITS - root);
      LowSmall(q, root);
      LowSmall(q', root);
      RevInjective(root, q, q');
    }
  }

  /** All tables end where the phase says they do. */
  lemma TableEnd(t: seq<Entry>, root: nat, next: nat, curr: nat, drop: nat, low: int,
                 lens: seq<nat>, len: nat, K: nat)
    requires LensOk(lens) && 1 <= root <= MAX_BITS
    requires Phase(t, root, next, curr, drop, low, lens, len, K)
    ensures next + Pow2(curr) == |t| && Pow2(root) <= |t|
    ensures forall i :: 0 <= i < Pow2(root) && IsLink(t[i]) ==> Pow2(root) <= t[i].val
  {
  }

  lemma NewPhase(t: seq<Entry>, t': seq<Entry>, root: nat, curr: nat, q: nat,
                 ty: CodeType, lens: seq<nat>, len: nat, K: nat)
    requires |lens| <= MaxSymbols(ty) && 1 <= root < len <= MAX_BITS && 1 <= curr <= 15
    requires LensOk(lens) && NotOver(lens) && K < Pow2(MAX_BITS)
    requires DecodesBelow(t, root, ty, lens, K) && K == Shl(q, MAX_BITS - root)
    requires forall i :: 0 <= i < Pow2(root) && IsLink(t[i]) ==> Pow2(root) <= t[i].val
    requires |t'| == |t| + Pow2(curr) && q == Shr(K, MAX_BITS - root)
    requires Rev(root, q) < |t|
    requires t' == (t + seq(Pow2(curr), _ => Entry(0, 0, 0)))[Rev(root, q) := Entry(curr, root, |t|)]
    requires Fits(lens, K + Pow2(MAX_BITS - root), root + curr)
    ensures Phase(t', root, |t|, curr, root, Rev(root, q), lens, len, K)
    ensures DecodesBelow(t', root, ty, lens, K)
  {
    hide Low, Shr, Pow2, Rev, Shl, Rank, Lookup, Fits;
    ShrBound(K, MAX_BITS, MAX_BITS - root);
    RevBound(root, q);
    ShlNext(q, MAX_BITS - root);
    OpenSub(t, t', root, curr, q, ty, lens, K);
  }

  ghost predicate CountsFrom(lens: seq<nat>, count: seq<nat>, len: nat, r: nat) {
    && |count| == MAX_BITS + 1 && 1 <= len <= MAX_BITS && r <= Count(lens, len)
    && count[len] == Count(lens, len) - r
    && forall l :: len < l <= MAX_BITS ==> count[l] == Count(lens, l)
  }

  /** The symbol entered at sorted position (len, r) starts at K. */
  lemma CurrentSym(ty: CodeType, lens: seq<nat>, work: seq<nat>, len: nat, r: nat, K: nat) returns (s: nat)
    requires LensOk(lens) && NotOver(lens) && |lens| <= MaxSymbols(ty)
    requires |work| == |lens| && Placed(lens, work, |lens|)
    requires 1 <= len <= MAX_BITS && r < Count(lens, len)
    requires K == Shl(FirstCode(lens, len) + r, MAX_BITS - len)
    ensures Offset(lens, len) + r < |work| && s == work[Offset(lens, len) + r]
    ensures s < |lens| && lens[s] == len && IsSym(lens, s, len, K)
    ensures K < Pow2(MAX_BITS)
  {
    WorkAt(lens, work, len, r);
    s := work[Offset(lens, len) + r];
    SymCodeFits(lens, s);
  }

  lemma {:induction false} NothingShorter(lens: seq<nat>, l: nat)
    requires l <= MAX_BITS && Kraft(lens, l) == 0
    ensures Offset(lens, l + 1) == 0
  {
    if l == 0 {
    } else {
      NothingShorter(lens, l - 1);
      ShlZero(MAX_BITS - l);
      ShlMono(1, Count(lens, l), MAX_BITS - l);
      ShlPow2(0, MAX_BITS - l);
    }
  }

  lemma InitialPhase(t: seq<Entry>, root: nat, ty: CodeType, lens: seq<nat>, min: nat)
    requires LensOk(lens) && |lens| <= MaxSymbols(ty) && 1 <= min <= root <= MAX_BITS
    requires t == seq(Pow2(root), _ => Entry(0, 0, 0)) && Kraft(lens, min - 1) == 0
    ensures Phase(t, root, 0, root, 0, -1, lens, min, 0) && DecodesBelow(t, root, ty, lens, 0)
    ensures Shl(FirstCode(lens, min), MAX_BITS - min) == 0 == Rev(MAX_BITS, 0)
    ensures Offset(lens, min) == 0 && |t| == Pow2(root)
  {
    hide Rev, Kraft, Rank, Count, Lookup;
    FirstCodePos(lens, min);
    NothingShorter(lens, min - 1);
    NothingReversed(MAX_BITS);
  }

  lemma {:induction false} NothingReversed(n: nat)
    ensures Rev(n, 0) == 0
  {
    if n == 0 {
    } else {
      NothingReversed(n - 1);
    }
  }

  /** The reversed code and its position, before and after the increment. */
  lemma NextCode(len: nat, c: nat)
    requires 1 <= len <= MAX_BITS
    ensures Rev(MAX_BITS, Shl(c, MAX_BITS - len)) == Rev(len, c)
    ensures Rev(MAX_BITS, Shl(c + 1, MAX_BITS - len)) == Rev(len, c + 1)
    ensures Shl(c + 1, MAX_BITS - len) == Shl(c, MAX_BITS - len) + Width(len)
  {
    RevShift(len, MAX_BITS - len, c);
    RevShift(len, MAX_BITS - len, c + 1);
    ShlNext(c, MAX_BITS - len);
  }

  /** A changed root slot starts exactly at K. */
  lemma OpenSlot(t: seq<Entry>, root: nat, next: nat, curr: nat, drop: nat, low: int,
                 lens: seq<nat>, len: nat, c: nat) returns (q: nat)
    requires LensOk(lens) && 1 <= root <= MAX_BITS && 1 <= len <= MAX_BITS
    requires Phase(t, root, next, curr, drop, low, lens, len, Shl(c, MAX_BITS - len))
    requires Low(Rev(MAX_BITS, Shl(c + 1, MAX_BITS - len)), root) != low
    ensures var K := Shl(c + 1, MAX_BITS - len);
            q == Shr(K, MAX_BITS - root) && K == Shl(q, MAX_BITS - root) && Low(Rev(MAX_BITS, K), root) == Rev(root, q)
    ensures Rev(root, q) < Pow2(root)
    ensures len > root ==> q == Shr(Shl(c, MAX_BITS - len), MAX_BITS - root) + 1
  {
    hide Low, Shr, Pow2, Rev, Shl, SubPhase, RootPhase, Fits;
    var K := Shl(c + 1, MAX_BITS - len);
    q := Shr(K, MAX_BITS - root);
    RevPrefix(MAX_BITS, root, K);
    RevBound(root, q);
    SlotStep(c, len, root);
  }

  lemma PhaseAtEnd(t: seq<Entry>, root: nat, next: nat, curr: nat, drop: nat, low: int,
                   lens: seq<nat>, len: nat, K: nat)
    requires LensOk(lens) && root <= MAX_BITS
    requires Phase(t, root, next, curr, drop, low, lens, len, K)
    ensures len <= root ==> RootPhase(t, root) && next == 0
    ensures drop == if len <= root then 0 else root
  {
  }

  /** used counts the root table and the sub-tables opened so far. */
  ghost predicate SizeSoFar(lens: seq<nat>, root: nat, max: nat, len: nat, K: nat, used: nat)
    requires root <= max <= MAX_BITS
  {
    if len <= root then used == Pow2(root)
    else
      var q0, q := Shr(Kraft(lens, root), MAX_BITS - root), Shr(K, MAX_BITS - root);
      root < max && q0 <= q && used == Pow2(root) + SubSize(lens, root, max, q0, q + 1)
  }

  lemma SizeAtStart(lens: seq<nat>, root: nat, max: nat, min: nat, used: nat)
    requires min <= root <= max <= MAX_BITS && used == Pow2(root)
    ensures SizeSoFar(lens, root, max, min, 0, used) && used <= TableSize(lens, root, max)
  {
  }

  /** Opening the sub-table of slot q adds its size; the total stays within TableSize. */
  lemma SizeWithSub(lens: seq<nat>, root: nat, max: nat, len: nat, K: nat, len': nat, K': nat, used: nat, q: nat,
                    curr: nat)
    requires 1 <= root < len' <= max <= MAX_BITS && 1 <= len <= len'
    requires SizeSoFar(lens, root, max, len, K, used)
    requires q == Shr(K', MAX_BITS - root) && K' == Shl(q, MAX_BITS - root) && K' < Pow2(MAX_BITS)
    requires len > root ==> q == Shr(K, MAX_BITS - root) + 1
    requires len <= root ==> K' == Kraft(lens, len) == Kraft(lens, len' - 1)
    requires root + curr == SlotEnd(lens, K' + Pow2(MAX_BITS - root), max, root + 1)
    ensures SizeSoFar(lens, root, max, len', K', used + Pow2(curr))
    ensures used + Pow2(curr) <= TableSize(lens, root, max)
  {
    hide Shl, Shr, Pow2, Kraft, SlotEnd;
    var q0 := Shr(Kraft(lens, root), MAX_BITS - root);
    ShlNext(q, MAX_BITS - root);
    if len <= root {
      KraftMono(lens, len, root);
      KraftMono(lens, root, len' - 1);
    } else {
      assert used == Pow2(root) + SubSize(lens, root, max, q0, q);
    }
    assert SlotBits(lens, root, max, q) == curr;
    ShrBound(K', MAX_BITS, MAX_BITS - root);
    SubSizeMono(lens, root, max, q0, q + 1, Pow2(root));
  }

  lemma SameSize(t: seq<Entry>, root: nat, next: nat, curr: nat, drop: nat, low: int,
                 lens: seq<nat>, max: nat, len: nat, c: nat, len': nat, used: nat)
    requires LensOk(lens) && 1 <= root <= max <= MAX_BITS && 1 <= len <= len' <= max
    requires Phase(t, root, next, curr, drop, low, lens, len, Shl(c, MAX_BITS - len))
    requires Phase(t, root, next, curr, drop, low, lens, len', Shl(c + 1, MAX_BITS - len))
    requires SizeSoFar(lens, root, max, len, Shl(c, MAX_BITS - len), used)
    requires Shl(c + 1, MAX_BITS - len) < Pow2(MAX_BITS)
    ensures SizeSoFar(lens, root, max, len', Shl(c + 1, MAX_BITS - len), used)
  {
    hide Low, Shr, Shl, Rev, Pow2, SubSize, SubPhase, RootPhase, Fits, Kraft;
    if len' > root {
      var K, K' := Shl(c, MAX_BITS - len), Shl(c + 1, MAX_BITS - len);
      ShlMono(c, c + 1, MAX_BITS - len);
      ShrBound(K, MAX_BITS, MAX_BITS - root);
      ShrBound(K', MAX_BITS, MAX_BITS - root);
      LowSmall(Shr(K, MAX_BITS - root), root);
      LowSmall(Shr(K', MAX_BITS - root), root);
      RevInjective(root, Shr(K, MAX_BITS - root), Shr(K', MAX_BITS - root));
    }
  }

  /** The last code of a complete code lies in the last root slot. */
  lemma SizeAtEnd(lens: seq<nat>, root: nat, max: nat, c: nat, used: nat)
    requires 1 <= root <= max <= MAX_BITS && (Complete(lens) || root == max)
    requires SizeSoFar(lens, root, max, max, Shl(c, MAX_BITS - max), used)
    requires Shl(c + 1, MAX_BITS - max) == Kraft(lens, max)
    requires Complete(lens) ==> Kraft(lens, max) == Pow2(MAX_BITS)
    ensures used == TableSize(lens, root, max)
  {
    hide Shl, Shr, Pow2, Kraft, SubSize;
    if root < max {
      SlotStep(c, max, root);
      ShlPow2(root, MAX_BITS - root);
      ShlLow(Pow2(root), 0, MAX_BITS - root);
      ShlNext(c, MAX_BITS - max);
      ShrBound(Shl(c, MAX_BITS - max), MAX_BITS, MAX_BITS - root);
    }
  }

  /** Moves on to the next symbol in sorted order, updating count and len; done
      after the last code of length max. */
  method NextSymbol(lens: seq<nat>, count: array<nat>, work: array<nat>, len: nat, max: nat, sym: nat, ghost r: nat)
    returns (done: bool, len': nat, ghost r': nat)
    requires LensOk(lens) && count != work && CountsFrom(lens, count[..], len, r)
    requires work.Length == |lens| && Placed(lens, work[..], |lens|)
    requires 1 <= len <= max <= MAX_BITS && r < Count(lens, len) && Count(lens, max) > 0
    requires sym == Offset(lens, len) + r + 1
    modifies count
    ensures done ==> len' == len == max && r + 1 == Count(lens, len)
    ensures !done ==> len <= len' <= max && r' < Count(lens, len') && sym == Offset(lens, len') + r'
    ensures !done ==> CountsFrom(lens, count[..], len', r')
    ensures !done ==>
              Shl(FirstCode(lens, len') + r', MAX_BITS - len') == Shl(FirstCode(lens, len) + r + 1, MAX_BITS - len)
    ensures !done && len' > len ==>
              Kraft(lens, len) == Kraft(lens, len' - 1) == Shl(FirstCode(lens, len') + r', MAX_BITS - len')
  {
    hide Shl, Kraft, Placed, FirstCode, Count, Offset;
    count[len] := count[len] - 1;
    done, len', r' := false, len, r + 1;
    if count[len] == 0 {
      if len == max {
        return true, len, r;
      }
      EndOfLength(lens, len);
      ghost var l := NextLength(lens, len, max);
      OffsetNext(lens, len);
      FirstCodePos(lens, l);
      WorkAt(lens, work[..], l, 0);
      len' := lens[work[sym]];
      r' := 0;
    }
  }

  /** Creates the table entry of the current symbol and replicates it. */
  method EnterCode(ty: CodeType, lens: seq<nat>, work: array<nat>, sym: nat, root: nat,
                   t: seq<Entry>, next: nat, curr: nat, drop: nat, low: int, huff: nat, len: nat,
                   ghost r: nat, ghost K: nat) returns (t': seq<Entry>)
    requires LensOk(lens) && |lens| <= MaxSymbols(ty) && NotOver(lens) && 1 <= root <= MAX_BITS
    requires work.Length == |lens| && Placed(lens, work[..], |lens|)
    requires 1 <= len <= MAX_BITS && r < Count(lens, len) && sym == Offset(lens, len) + r
    requires K == Shl(FirstCode(lens, len) + r, MAX_BITS - len) && huff == Rev(MAX_BITS, K)
    requires DecodesBelow(t, root, ty, lens, K) && Phase(t, root, next, curr, drop, low, lens, len, K)
    ensures Phase(t', root, next, curr, drop, low, lens, len, K) && |t'| == |t|
    ensures DecodesBelow(t', root, ty, lens, K + Width(len)) && sym < |lens|
  {
    hide Low, Shr, Pow2, Rev, Shl, Rank, Kraft, DecodesBelow, RootPhase, SubPhase, Placed, Fits, Code,
         FirstCode, Count, Offset, Phase, SymOp, SymVal, Width;
    ghost var s := CurrentSym(ty, lens, work[..], len, r, K);
    FillRoom(t, root, next, curr, drop, low, lens, s, K);
    var entry := Entry(SymOp(ty, work[sym]), len - drop, SymVal(ty, work[sym]));
    t' := Replicate(t, next, curr, len - drop, Shr(huff, drop), entry);
    FillStep(t, t', root, next, curr, drop, low, ty, lens, s, K);
  }

  /** The loops that fill the tables, given sorted symbols and remaining counts. */
  method FillTables(ty: CodeType, lens: seq<nat>, count: array<nat>, work: array<nat>,
                    min: nat, max: nat, root: nat)
    returns (ok: bool, t: seq<Entry>, huff: nat, len: nat, next: nat, drop: nat, low: int)
    requires LensOk(lens) && |lens| <= MaxSymbols(ty) && NotOver(lens)
    requires 1 <= min <= root <= max <= MAX_BITS
    requires count != work && CountsFrom(lens, count[..], min, 0)
    requires work.Length == |lens| && Placed(lens, work[..], |lens|)
    requires Count(lens, min) > 0 && Count(lens, max) > 0
    requires forall s :: 0 <= s < |lens| ==> lens[s] <= max
    requires Kraft(lens, min - 1) == 0 && (Complete(lens) || root == max)
    modifies count
    ensures !ok <==> ty == LENS && TableSize(lens, root, max) >= ENOUGH - MAXD
    ensures ok ==> |t| == TableSize(lens, root, max)
    ensures ok ==> DecodesBelow(t, root, ty, lens, Kraft(lens, max))
    ensures ok && root == max ==> RootPhase(t, root) && next == 0
    ensures ok ==> huff == Rev(MAX_BITS, Kraft(lens, max)) && len == max && drop == if max <= root then 0 else root
  {
    hide Low, Shr, Pow2, Rev, Shl, Rank, Kraft, DecodesBelow, RootPhase, SubPhase, Placed, Fits, Code,
         FirstCode, Count, Offset, Phase, Filled, SymOp, SymVal, Width, SizeSoFar, TableSize, SlotEnd;
    ok, huff, len := true, 0, min;
    next, drop, low := 0, 0, -1;
    var sym: nat, curr := 0, root;
    t := seq(Pow2(root), _ => Entry(0, 0, 0));
    var used := Pow2(root);
    SizeAtStart(lens, root, max, min, used);
    if ty == LENS && used >= ENOUGH - MAXD {
      ok := false;
      return;
    }
    ghost var r: nat, K: nat := 0, 0;
    InitialPhase(t, root, ty, lens, min);
    ghost var w := work[..];
    while true
      invariant ok && min <= len <= max && r < Count(lens, len) && sym == Offset(lens, len) + r
      invariant K == Shl(FirstCode(lens, len) + r, MAX_BITS - len) && huff == Rev(MAX_BITS, K)
      invariant CountsFrom(lens, count[..], len, r) && work[..] == w
      invariant used == |t| && SizeSoFar(lens, root, max, len, K, used)
      invariant ty == LENS ==> used < ENOUGH - MAXD
      invariant DecodesBelow(t, root, ty, lens, K)
      invariant Phase(t, root, next, curr, drop, low, lens, len, K)
      decreases |lens| - sym
    {
      t := EnterCode(ty, lens, work, sym, root, t, next, curr, drop, low, huff, len, r, K);

      // backwards increment the code, go to the next symbol
      ghost var len0, c := len, FirstCode(lens, len) + r;
      NextCode(len, c);
      huff := BackwardIncrement(huff, len, c);
      sym := sym + 1;
      var done;
      done, len, r := NextSymbol(lens, count, work, len, max, sym, r);
      K := K + Width(len0);
      if done {
        EndOfLength(lens, max);
        KraftAbove(lens, max, MAX_BITS);
        PhaseAtEnd(t, root, next, curr, drop, low, lens, len0, Shl(c, MAX_BITS - len0));
        SizeAtEnd(lens, root, max, c, used);
        return;
      }

      // create a new sub-table if needed
      ghost var s' := CurrentSym(ty, lens, w, len, r, K);
      if len > root && Low(huff, root) != low {
        ghost var q := OpenSlot(t, root, next, curr, drop, low, lens, len0, c);
        TableEnd(t, root, next, curr, drop, low, lens, len0, Shl(c, MAX_BITS - len0));
        drop := root;
        next := next + Pow2(curr);
        RemainingOfLength(lens, len, r);
        curr := SubTableBits(lens, count, len, root, max, K);
        SizeWithSub(lens, root, max, len0, Shl(c, MAX_BITS - len0), len, K, used, q, curr);
        used := used + Pow2(curr);
        if ty == LENS && used >= ENOUGH - MAXD {
          ok := false;
          return;
        }
        low := Low(huff, root);
        ghost var t1 := t;
        t := (t + seq(Pow2(curr), _ => Entry(0, 0, 0)))[low := Entry(curr, root, next)];
        NewPhase(t1, t, root, curr, q, ty, lens, len, K);
      } else {
        SamePhase(t, root, next, curr, drop, low, lens, len0, c, len);
        SameSize(t, root, next, curr, drop, low, lens, max, len0, c, len, used);
      }
    }
  }

  // ---------------------------------------------------------------- inflate_table

  predicate Empty(lens: seq<nat>) {
    forall s :: 0 <= s < |lens| ==> lens[s] == 0
  }

  /** The sets of lengths inflate_table accepts: none at all, a complete code, or,
      for lengths and distances, a single code of one bit. */
  predicate Accepts(ty: CodeType, lens: seq<nat>) {
    || Empty(lens)
    || Complete(lens)
    || (ty != CODES && NotOver(lens) && forall s :: 0 <= s < |lens| ==> lens[s] <= 1)
  }

  /** The longest length in use up to l, and the shortest from l on. */
  function LongestUpTo(lens: seq<nat>, l: nat): (r: nat)
    ensures r <= l
  {
    if l == 0 || Count(lens, l) > 0 then l else LongestUpTo(lens, l - 1)
  }

  function ShortestFrom(lens: seq<nat>, l: nat): (r: nat)
    decreases MAX_BITS - l
  {
    if l >= MAX_BITS || Count(lens, l) > 0 then l else ShortestFrom(lens, l + 1)
  }

  /** The requested root size, forced to be within the code lengths. */
  function RootBits(lens: seq<nat>, bits: nat): (r: nat) {
    var max, min := LongestUpTo(lens, MAX_BITS), ShortestFrom(lens, 1);
    var root := if bits > max then max else bits;
    if root < min then min else root
  }

  /** The tables fit the space set aside for them.  Only literal/length tables
      are checked. */
  predicate Roomy(ty: CodeType, lens: seq<nat>, bits: nat) {
    || ty != LENS || Empty(lens)
    || TableSize(lens, RootBits(lens, bits), LongestUpTo(lens, MAX_BITS)) < ENOUGH - MAXD
  }

  method LongestLength(lens: seq<nat>, count: array<nat>) returns (max: nat)
    requires LensOk(lens) && count.Length == MAX_BITS + 1
    requires forall l :: 0 <= l <= MAX_BITS ==> count[l] == Count(lens, l)
    ensures max == LongestUpTo(lens, MAX_BITS) && (max == 0 || Count(lens, max) > 0)
    ensures forall s :: 0 <= s < |lens| ==> lens[s] <= max
  {
    max := MAX_BITS;
    while max >= 1 && count[max] == 0
      invariant max <= MAX_BITS && LongestUpTo(lens, MAX_BITS) == LongestUpTo(lens, max)
      invariant forall l :: max < l <= MAX_BITS ==> Count(lens, l) == 0
    {
      max := max - 1;
    }
    forall s | 0 <= s < |lens|
      ensures lens[s] <= max
    {
      RankBound(lens, s);
    }
  }

  method ShortestLength(lens: seq<nat>, count: array<nat>, max: nat) returns (min: nat)
    requires count.Length == MAX_BITS + 1 && 1 <= max <= MAX_BITS && Count(lens, max) > 0
    requires forall l :: 0 <= l <= MAX_BITS ==> count[l] == Count(lens, l)
    ensures min == ShortestFrom(lens, 1)
    ensures 1 <= min <= max && Count(lens, min) > 0 && Kraft(lens, min - 1) == 0
  {
    min := 1;
    while min <= MAX_BITS && count[min] == 0
      invariant 1 <= min <= max && Kraft(lens, min - 1) == 0
      invariant ShortestFrom(lens, 1) == ShortestFrom(lens, min)
    {
      ShlZero(MAX_BITS - min);
      min := min + 1;
    }
  }

  lemma StartOfSpace(lens: seq<nat>)
    ensures Shl(1, MAX_BITS) == Pow2(MAX_BITS) && Kraft(lens, 0) == 0
  {
    hide Shl;
    ShlPow2(0, MAX_BITS);
  }

  /** The check for an over-subscribed or incomplete set of lengths.  A negative
      result stands for the early return of -1. */
  method SpaceLeft(lens: seq<nat>, count: array<nat>) returns (left: int)
    requires count.Length == MAX_BITS + 1
    requires forall l :: 0 <= l <= MAX_BITS ==> count[l] == Count(lens, l)
    ensures left < 0 <==> !NotOver(lens)
    ensures left == 0 <==> Complete(lens)
  {
    hide Shl, Pow2, Kraft, Count;
    left := 1;
    StartOfSpace(lens);
    for len := 1 to MAX_BITS + 1
      invariant left >= 0 && Shl(left, MAX_BITS - len + 1) + Kraft(lens, len - 1) == Pow2(MAX_BITS)
    {
      KraftStep(lens, len);
      ShlDouble(left, MAX_BITS - len);
      left := 2 * left;
      if left < count[len] {
        ShlMono(count[len], left, MAX_BITS - len);
        KraftMono(lens, len, MAX_BITS);
        return left - count[len];
      }
      ShlAdd(left - count[len], count[len], MAX_BITS - len);
      left := left - count[len];
    }
    ShlNone(left);
  }

  lemma {:induction false} KraftAbove(lens: seq<nat>, max: nat, l: nat)
    requires max <= l <= MAX_BITS
    requires forall s :: 0 <= s < |lens| ==> lens[s] <= max
    ensures Kraft(lens, l) == Kraft(lens, max)
  {
    if max == l {
    } else {
      KraftAbove(lens, max, l - 1);
      NoneOfLength(lens, l, |lens|);
      ShlZero(MAX_BITS - l);
    }
  }

  lemma {:induction false} NoneOfLength(lens: seq<nat>, l: nat, n: nat)
    requires n <= |lens| && forall s :: 0 <= s < |lens| ==> lens[s] != l
    ensures Rank(lens, l, n) == 0
  {
    if n == 0 {
    } else {
      NoneOfLength(lens, l, n - 1);
    }
  }

  /** All codes entered: a complete code needs no more. */
  lemma AllEntered(t: seq<Entry>, root: nat, ty: CodeType, lens: seq<nat>, max: nat)
    requires |lens| <= MaxSymbols(ty) && LensOk(lens) && max <= MAX_BITS
    requires forall s :: 0 <= s < |lens| ==> lens[s] <= max
    requires DecodesBelow(t, root, ty, lens, Kraft(lens, max))
    ensures forall s: nat, w: nat :: Starts(lens, s, w) ==>
              Lookup(t, root, w) == Decoded(SymOp(ty, s), SymVal(ty, s), lens[s])
    ensures Complete(lens) ==> TableFor(t, root, ty, lens)
  {
    forall s: nat, w: nat | Starts(lens, s, w)
      ensures Lookup(t, root, w) == Decoded(SymOp(ty, s), SymVal(ty, s), lens[s])
    {
      PosIs(lens, s);
      KraftMono(lens, lens[s], max);
    }
    if Complete(lens) {
      forall w: nat
        ensures !Unmatched(lens, w)
      {
        var s := Covered(lens, w);
        assert Starts(lens, s, w);
      }
    }
  }

  /** A single code of one bit takes half of the code space. */
  lemma OneCodeSpace(lens: seq<nat>)
    requires LensOk(lens) && NotOver(lens) && !Complete(lens) && Count(lens, 1) > 0
    requires forall s :: 0 <= s < |lens| ==> lens[s] <= 1
    ensures Count(lens, 1) == 1 && Rev(MAX_BITS, Kraft(lens, 1)) == 1
  {
    hide Shl, Pow2, Rev, Count;
    KraftAbove(lens, 1, MAX_BITS);
    KraftStep(lens, 1);
    StartOfSpace(lens);
    ShlPow2(0, MAX_BITS - 1);
    ShlPow2(1, MAX_BITS - 1);
    ShlMono(2, Count(lens, 1), MAX_BITS - 1);
    RevShift(1, MAX_BITS - 1, 1);
    RevOne();
  }

  lemma RevOne()
    ensures Rev(1, 1) == 1 && Pow2(0) == 1 && Pow2(1) == 2
  {
    assert Rev(1, 1) == 2 * Rev(0, 1) + Bit(1, 0);
  }

  lemma OneCode(lens: seq<nat>, w: nat)
    requires Count(lens, 1) == 1
    requires forall s :: 0 <= s < |lens| ==> lens[s] <= 1
    ensures Unmatched(lens, w) <==> Low(w, 1) == 1
    ensures Low(w, 1) <= 1
  {
    var s := SymOfRank(lens, 1, 0, |lens|);
    assert Code(lens, s) == 0;
    assert Low(w, 1) == w % 2;
    if w % 2 == 0 {
      assert Starts(lens, s, w);
    } else {
      forall s': nat
        ensures !Starts(lens, s', w)
      {
        if s' < |lens| && lens[s'] == 1 {
          RankBound(lens, s');
        }
      }
    }
  }

  /** Marking the other half invalid completes the table of a one-bit code. */
  lemma MarkInvalid(t: seq<Entry>, ty: CodeType, lens: seq<nat>)
    requires |lens| <= MaxSymbols(ty) && LensOk(lens) && NotOver(lens) && !Complete(lens) && Count(lens, 1) > 0
    requires forall s :: 0 <= s < |lens| ==> lens[s] <= 1
    requires RootPhase(t, 1) && DecodesBelow(t, 1, ty, lens, Kraft(lens, 1))
    ensures |t| == 2 && RootPhase(t[1 := INVALID], 1) && TableFor(t[1 := INVALID], 1, ty, lens)
  {
    hide Low, Shr, Rank, Kraft, Pos, Width, SymOp, SymVal;
    var t' := t[1 := INVALID];
    OneCodeSpace(lens);
    AllEntered(t, 1, ty, lens, 1);
    forall s: nat, w: nat | Starts(lens, s, w)
      ensures Lookup(t', 1, w) == Decoded(SymOp(ty, s), SymVal(ty, s), lens[s])
    {
      OneCode(lens, w);
      assert Lookup(t', 1, w) == Lookup(t, 1, w);
    }
    forall w: nat | Unmatched(lens, w)
      ensures Lookup(t', 1, w) == NOTHING
    {
      OneCode(lens, w);
    }
  }

  /** With no codes at all, both slots of a one-bit table report an error. */
  lemma EmptyTable(ty: CodeType, lens: seq<nat>)
    requires |lens| <= MaxSymbols(ty) && Empty(lens)
    ensures TableFor([INVALID, INVALID], 1, ty, lens)
  {
    forall w: nat
      ensures Lookup([INVALID, INVALID], 1, w) == NOTHING
    {
      LowBound(w, 1);
    }
  }

  method BuildTable(ty: CodeType, lens: seq<nat>, bits: nat) returns (r: TableResult)
    requires LensOk(lens) && |lens| <= MaxSymbols(ty)
    ensures r.InvalidCode? <==> !Accepts(ty, lens)
    ensures r.NoSpace? <==> Accepts(ty, lens) && !Roomy(ty, lens, bits)
    ensures r.Built? ==> 1 <= r.root <= MAX_BITS && TableFor(r.table, r.root, ty, lens)
    ensures r.Built? && (forall s :: 0 <= s < |lens| ==> lens[s] <= bits) ==>
              forall i :: 0 <= i < |r.table| ==> !IsLink(r.table[i])
  {
    hide Low, Shr, Pow2, Rev, Shl, Rank, Kraft, DecodesBelow, Placed, TableFor, Count, TableSize,
         LongestUpTo, ShortestFrom;
    var count := CountLengths(lens);
    var root := bits;
    var max := LongestLength(lens, count);
    if root > max {
      root := max;
    }
    if max == 0 {
      EmptyTable(ty, lens);
      return Built([INVALID, INVALID], 1);
    }
    NotEmpty(lens, max);
    var min := ShortestLength(lens, count, max);
    if root < min {
      root := min;
    }
    var left := SpaceLeft(lens, count);
    if left < 0 {
      return InvalidCode;
    }
    if left > 0 && (ty == CODES || max != 1) {
      return InvalidCode;
    }
    var work := SortSymbols(lens, count);
    var ok, t, huff, len, next, drop, low := FillTables(ty, lens, count, work, min, max, root);
    if !ok {
      return NoSpace;
    }
    AllEntered(t, root, ty, lens, max);
    RestIsHalf(lens, max);
    assert left > 0 ==> root == 1;

    // fill in the rest of the table for incomplete codes
    var entry := Entry(64, len - drop, 0);
    if left > 0 {
      MarkInvalid(t, ty, lens);
    }
    ghost var t0 := t;
    while huff != 0
      invariant huff != 0 ==> huff == 1 && left > 0 && t == t0
      invariant huff == 0 ==> t == if left > 0 then t0[1 := INVALID] else t0
      invariant left > 0 ==> drop == 0 && len == 1 && next == 0 && entry == INVALID
      decreases huff
    {
      // the drop back from a sub-table to the root table is dead code: an
      // accepted incomplete code has no sub-tables
      if drop != 0 && Low(huff, root) != low {
        assert false;
      }
      t := t[next + Shr(huff, drop) := entry];
      huff := BackwardIncrement(huff, len, 1);
    }
    return Built(t, root);
  }

  /** After the last code huff is zero, unless half of the space is left. */
  lemma RestIsHalf(lens: seq<nat>, max: nat)
    requires LensOk(lens) && NotOver(lens) && 1 <= max <= MAX_BITS && Count(lens, max) > 0
    requires forall s :: 0 <= s < |lens| ==> lens[s] <= max
    requires Complete(lens) || max == 1
    ensures Complete(lens) ==> Rev(MAX_BITS, Kraft(lens, max)) == 0
    ensures !Complete(lens) ==> Rev(MAX_BITS, Kraft(lens, max)) == 1
    ensures Rev(1, 1) == 1 && Rev(1, 2) == 0 && Shr(1, 0) == 1
  {
    hide Shl, Kraft, Pow2, Count;
    KraftAbove(lens, max, MAX_BITS);
    if Complete(lens) {
      StartOfSpace(lens);
      RevShift(0, MAX_BITS, 1);
    } else {
      OneCodeSpace(lens);
    }
    RevOne();
    assert Rev(1, 2) == 2 * Rev(0, 2) + Bit(2, 0);
  }

  lemma NotEmpty(lens: seq<nat>, max: nat)
    requires max >= 1 && Count(lens, max) > 0
    ensures exists s :: 0 <= s < |lens| && lens[s] == max
    ensures !Empty(lens)
  {
    var s := SymOfRank(lens, max, 0, |lens|);
  }
}
