/** deflate.c: the sliding window, the hash chains and the match finder. */
module Matcher {
  import opened Bits
  import opened RollingHash

  const MIN_MATCH: nat := 3
  const MAX_MATCH: nat := 258
  const MIN_LOOKAHEAD: nat := 262
  const NIL: nat := 0

  datatype Strategy = Z_DEFAULT | Z_FILTERED | Z_HUFFMAN_ONLY | Z_RLE | Z_FIXED

  /** The compression parameters. */
  datatype Config = Config(goodMatch: nat, maxLazy: nat, niceMatch: nat, maxChain: nat, hashBits: nat,
                           strategy: Strategy)

  predicate BitsOk(c: Config) {
    8 <= c.hashBits <= 16
  }

  predicate ConfigOk(c: Config) {
    BitsOk(c) && c.maxChain >= 4
  }

  /** The matching part of deflate_state: wSize is half the window, window index strstart is the next string,
      head and prev are the hash chains of window indexes. */
  datatype Lz = Lz(
    wSize: nat, window: seq<Byte>, head: map<nat, nat>, prev: seq<nat>, insH: nat,
    strstart: nat, lookahead: nat, blockStart: int,
    matchStart: int, matchLength: nat, prevLength: nat, matchAvailable: bool)

  /** What the proof remembers: all input read, the position of window index 0 in
      it, the positions inserted in the chains, up to top, and the position of the last full flush,
      where the chains were forgotten. */
  datatype Past = Past(data: seq<Byte>, base: nat, ins: set<nat>, top: int, floor: nat)

  /** A window is of 512 to 32768 bytes. */
  predicate SizeOk(w: nat) {
    512 <= w <= 32768
  }

  /** How far back a match may start. */
  function MaxDist(w: nat): int {
    w - MIN_LOOKAHEAD
  }

  /** `p & w_mask`: w is a power of two. */
  function Slot(p: nat, w: nat): (r: nat)
    requires w > 0
    ensures r < w
  {
    p % w
  }

  lemma SlotShift(base: nat, p: nat, w: nat)
    requires w > 0 && base % w == 0
    ensures Slot(base + p, w) == Slot(p, w)
  {
    var a, b := base / w, p / w;
    assert base == w * a && p == w * b + p % w;
    assert w * (a + b) == w * a + w * b;
    DivModUnique(base + p, w, a + b, p % w);
  }

  /** Positions less than a window apart have different slots. */
  lemma SlotsDiffer(p: nat, q: nat, w: nat)
    requires w > 0 && p < q < p + w
    ensures Slot(p, w) != Slot(q, w)
  {
    var a, b := p / w, q / w;
    assert p == w * a + p % w && q == w * b + q % w;
    if p % w == q % w {
      assert q - p == w * b - w * a;
      NoMultiple(w, a, b);
    }
  }

  lemma NoMultiple(w: nat, a: nat, b: nat)
    ensures w * b - w * a <= 0 || w * b - w * a >= w
  {
    if b <= a {
      assert w * b <= w * a;
    } else {
      assert w * b >= w * (a + 1) == w * a + w;
    }
  }

  lemma NextBase(base: nat, w: nat)
    requires w > 0 && base % w == 0
    ensures (base + w) % w == 0
  {
    SlotShift(base, w, w);
    DivModUnique(w, w, 1, 0);
  }

  /** The next position in all input. */
  function Pos(z: Lz, g: Past): nat {
    g.base + z.strstart
  }

  /** The window holds the input from base on; once it has moved, it holds all that is in
      reach. */
  ghost predicate WindowOk(z: Lz, g: Past) {
    && |z.window| == 2 * z.wSize && z.strstart + z.lookahead <= 2 * z.wSize && SizeOk(z.wSize) && g.base % z.wSize == 0
    && (g.base == 0 || z.strstart >= MaxDist(z.wSize))
    && |g.data| == g.base + z.strstart + z.lookahead && g.floor <= g.base + z.strstart
    && forall i :: 0 <= i < z.strstart + z.lookahead ==> z.window[i] == g.data[g.base + i]
  }

  /** The head of a chain. */
  function HeadOf(head: map<nat, nat>, h: nat): nat {
    if h in head then head[h] else NIL
  }

  /** The hash of the string at p. */
  function KeyAt(data: seq<Byte>, p: nat, bits: nat): nat
    requires p + 3 <= |data|
  {
    Key(data[p], data[p + 1], data[p + 2], bits)
  }

  /** No string inserted between window index v and position p has the hash h. */
  ghost predicate NoneBetween(g: Past, bits: nat, v: nat, p: int, h: nat) {
    forall r :: r in g.ins && g.base + v < r < p && r + 3 <= |g.data| ==> KeyAt(g.data, r, bits) != h
  }

  /** v is the last string inserted before p with the hash h, or the end of a chain. */
  ghost predicate LinkOk(g: Past, bits: nat, v: nat, p: int, h: nat) {
    && (v == NIL
        || (&& g.base + v in g.ins && g.base + v < p && g.base + v + 3 <= |g.data|
            && KeyAt(g.data, g.base + v, bits) == h))
    && NoneBetween(g, bits, v, p, h)
  }

  /** The chains lead from each string to the last one before it with the same hash. */
  ghost predicate ChainsOk(z: Lz, g: Past, bits: nat) {
    && |z.prev| == z.wSize > 0
    && (forall p :: p in g.ins ==> g.floor <= p <= g.top && p + 3 <= |g.data|)
    && (forall h: nat :: LinkOk(g, bits, HeadOf(z.head, h), g.top + 1, h))
    && (forall p :: p in g.ins && p + z.wSize > g.top && p + 3 <= |g.data| ==>
          LinkOk(g, bits, z.prev[Slot(p, z.wSize)], p, KeyAt(g.data, p, bits)))
  }

  /** No link, however old, leads beyond the next string. */
  predicate LinksBounded(z: Lz) {
    (forall h :: h in z.head ==> z.head[h] <= z.strstart) && (forall i :: 0 <= i < |z.prev| ==> z.prev[i] <= z.strstart)
  }

  /** The rolling hash has seen the next two bytes. */
  ghost predicate HashOk(z: Lz, g: Past, bits: nat) {
    z.lookahead >= MIN_MATCH ==>
      Pos(z, g) + 2 <= |g.data| && Ready(z.insH, g.data[Pos(z, g)], g.data[Pos(z, g) + 1], bits)
  }

  ghost predicate MatcherOk(z: Lz, g: Past, bits: nat) {
    WindowOk(z, g) && ChainsOk(z, g, bits) && LinksBounded(z) && HashOk(z, g, bits) && g.top < Pos(z, g)
  }

  // ---------------------------------------------------------------- INSERT_STRING

  /** The window bytes of a string are the input's. */
  lemma ThreeBytes(z: Lz, g: Past, i: nat)
    requires WindowOk(z, g) && i + 3 <= z.strstart + z.lookahead
    ensures g.base + i + 3 <= |g.data| && z.window[i] == g.data[g.base + i]
    ensures z.window[i + 1] == g.data[g.base + i + 1] && z.window[i + 2] == g.data[g.base + i + 2]
  {
  }

  function Inserted(z: Lz, h: nat): (r: Lz)
    requires |z.prev| == z.wSize > 0
  {
    z.(insH := h, prev := z.prev[Slot(z.strstart, z.wSize) := HeadOf(z.head, h)], head := z.head[h := z.strstart])
  }

  /** More strings inserted keep a link what it was, if they have other hashes. */
  lemma LinkMore(g: Past, k: Past, bits: nat, v: nat, p: int, q: int, h: nat)
    requires LinkOk(g, bits, v, p, h) && k.base == g.base && k.data == g.data && g.ins <= k.ins && p <= q
    requires forall r :: r in k.ins && r < q && r + 3 <= |k.data| && !(r in g.ins && r < p) ==>
               KeyAt(k.data, r, bits) != h
    ensures LinkOk(k, bits, v, q, h)
  {
    hide KeyAt;
  }

  lemma HeadLink(z: Lz, g: Past, bits: nat, h: nat)
    requires ChainsOk(z, g, bits)
    ensures LinkOk(g, bits, HeadOf(z.head, h), g.top + 1, h)
  {
    hide KeyAt, Slot;
  }

  lemma PrevLink(z: Lz, g: Past, bits: nat, p: nat)
    requires ChainsOk(z, g, bits) && p in g.ins && p + z.wSize > g.top
    ensures p + 3 <= |g.data| && p <= g.top && |z.prev| == z.wSize > 0
    ensures LinkOk(g, bits, z.prev[Slot(p, z.wSize)], p, KeyAt(g.data, p, bits))
  {
    hide KeyAt, Slot, LinkOk;
  }

  lemma OldPositions(z: Lz, g: Past, bits: nat, p: nat)
    requires ChainsOk(z, g, bits) && p in g.ins
    ensures g.floor <= p <= g.top && p + 3 <= |g.data|
  {
    hide KeyAt, Slot, LinkOk;
  }

  /** The string at strstart becomes the head of its chain. */
  lemma InsertedChains(z: Lz, g: Past, bits: nat, h: nat)
    requires WindowOk(z, g) && ChainsOk(z, g, bits) && g.top < Pos(z, g) && z.lookahead >= MIN_MATCH
    requires h == KeyAt(g.data, Pos(z, g), bits)
    ensures ChainsOk(Inserted(z, h), g.(ins := g.ins + {Pos(z, g)}, top := Pos(z, g)), bits)
    ensures LinkOk(g, bits, HeadOf(z.head, h), Pos(z, g), h)
  {
    hide KeyAt, Slot, LinkOk;
    var p := Pos(z, g);
    var r, k := Inserted(z, h), g.(ins := g.ins + {p}, top := p);
    SlotShift(g.base, z.strstart, z.wSize);
    HeadLink(z, g, bits, h);
    forall r | r in g.ins
      ensures r <= g.top
    {
      OldPositions(z, g, bits, r);
    }
    LinkMore(g, g, bits, HeadOf(z.head, h), g.top + 1, p, h);
    NewHead(k, bits, z.strstart, p, h);
    forall x: nat
      ensures LinkOk(k, bits, HeadOf(r.head, x), k.top + 1, x)
    {
      if x != h {
        HeadLink(z, g, bits, x);
        LinkMore(g, k, bits, HeadOf(z.head, x), g.top + 1, p + 1, x);
      }
    }
    forall q | q in k.ins && q + z.wSize > k.top && q + 3 <= |g.data|
      ensures LinkOk(k, bits, r.prev[Slot(q, z.wSize)], q, KeyAt(g.data, q, bits))
    {
      if q == p {
        LinkMore(g, k, bits, HeadOf(z.head, h), p, p, h);
      } else {
        OldPositions(z, g, bits, q);
        SlotsDiffer(q, p, z.wSize);
        PrevLink(z, g, bits, q);
        LinkMore(g, k, bits, z.prev[Slot(q, z.wSize)], q, q, KeyAt(g.data, q, bits));
      }
    }
    forall q | q in k.ins
      ensures k.floor <= q <= k.top && q + 3 <= |k.data|
    {
      if q != p {
        OldPositions(z, g, bits, q);
      }
    }
  }

  lemma NewHead(k: Past, bits: nat, v: nat, p: nat, h: nat)
    requires p == k.base + v && p in k.ins && p + 3 <= |k.data| && h == KeyAt(k.data, p, bits)
    requires forall r :: r in k.ins ==> r <= p
    ensures LinkOk(k, bits, v, p + 1, h)
  {
    hide KeyAt;
  }

  /** INSERT_STRING at strstart: returns the string that was head of the chain. */
  method InsertString(z: Lz, c: Config, ghost g: Past) returns (matchHead: nat, r: Lz, ghost k: Past)
    requires ConfigOk(c) && MatcherOk(z, g, c.hashBits) && z.lookahead >= MIN_MATCH
    ensures k == g.(ins := g.ins + {Pos(z, g)}, top := Pos(z, g))
    ensures r == z.(insH := r.insH, prev := r.prev, head := r.head)
    ensures WindowOk(r, k) && ChainsOk(r, k, c.hashBits) && LinksBounded(r) && matchHead <= z.strstart
    ensures Ready(r.insH, g.data[Pos(z, g) + 1], g.data[Pos(z, g) + 2], c.hashBits)
    ensures LinkOk(g, c.hashBits, matchHead, Pos(z, g), KeyAt(g.data, Pos(z, g), c.hashBits))
  {
    hide ChainsOk, Ready, Key, Update;
    ghost var p, bits := Pos(z, g), c.hashBits;
    ThreeBytes(z, g, z.strstart);
    var h := Update(z.insH, z.window[z.strstart + 2], c.hashBits);
    RollsTo(z.insH, g.data[p], g.data[p + 1], g.data[p + 2], bits);
    RollsOn(z.insH, g.data[p], g.data[p + 1], g.data[p + 2], bits);
    InsertedChains(z, g, bits, h);
    matchHead := HeadOf(z.head, h);
    ChainSize(z, g, bits);
    r := Inserted(z, h);
    k := g.(ins := g.ins + {p}, top := p);
  }

  lemma ChainSize(z: Lz, g: Past, bits: nat)
    requires ChainsOk(z, g, bits)
    ensures |z.prev| == z.wSize > 0
  {
  }

  // ----------------------------------------------------------------- fill_window

  /** A link after the window has moved by half. */
  function SlideLink(v: nat, w: nat): nat {
    if v >= w then v - w else NIL
  }

  function SlideHead(head: map<nat, nat>, w: nat): (r: map<nat, nat>)
    ensures forall h :: h in r <==> h in head
    ensures forall h :: h in head ==> r[h] == SlideLink(head[h], w)
  {
    map h | h in head :: SlideLink(head[h], w)
  }

  function SlidePrev(prev: seq<nat>, w: nat): (r: seq<nat>)
    ensures |r| == |prev| && forall i :: 0 <= i < |prev| ==> r[i] == SlideLink(prev[i], w)
  {
    seq(|prev|, i requires 0 <= i < |prev| => SlideLink(prev[i], w))
  }

  /** The upper half of the window becomes the lower half. */
  function Slide(z: Lz): (r: Lz)
    requires |z.window| == 2 * z.wSize && z.strstart >= z.wSize
  {
    z.(window := z.window[z.wSize..] + z.window[z.wSize..], head := SlideHead(z.head, z.wSize),
       prev := SlidePrev(z.prev, z.wSize),
       strstart := z.strstart - z.wSize, blockStart := z.blockStart - z.wSize, matchStart := z.matchStart - z.wSize)
  }

  lemma SlideLinkOk(g: Past, bits: nat, v: nat, p: int, h: nat, w: nat)
    requires LinkOk(g, bits, v, p, h)
    ensures LinkOk(g.(base := g.base + w), bits, SlideLink(v, w), p, h)
  {
    hide KeyAt;
  }

  lemma SlideOk(z: Lz, g: Past, bits: nat)
    requires MatcherOk(z, g, bits) && z.strstart >= z.wSize + MaxDist(z.wSize) && z.wSize >= MIN_LOOKAHEAD
    ensures MatcherOk(Slide(z), g.(base := g.base + z.wSize), bits)
            && Pos(Slide(z), g.(base := g.base + z.wSize)) == Pos(z, g)
  {
    hide KeyAt, Slot, LinkOk, Ready;
    var r, k := Slide(z), g.(base := g.base + z.wSize);
    NextBase(g.base, z.wSize);
    forall h: nat
      ensures LinkOk(k, bits, HeadOf(r.head, h), k.top + 1, h)
    {
      SlideLinkOk(g, bits, HeadOf(z.head, h), g.top + 1, h, z.wSize);
    }
    forall p | p in k.ins && p + z.wSize > k.top && p + 3 <= |k.data|
      ensures LinkOk(k, bits, r.prev[Slot(p, z.wSize)], p, KeyAt(k.data, p, bits))
    {
      SlideLinkOk(g, bits, z.prev[Slot(p, z.wSize)], p, KeyAt(g.data, p, bits), z.wSize);
    }
  }

  /** read_buf puts n more bytes behind the lookahead. */
  function Filled(z: Lz, more: seq<Byte>): (r: Lz)
    requires |z.window| == 2 * z.wSize && z.strstart + z.lookahead + |more| <= 2 * z.wSize
    ensures |r.window| == 2 * z.wSize
  {
    var end := z.strstart + z.lookahead;
    z.(window := z.window[..end] + more + z.window[end + |more|..], lookahead := z.lookahead + |more|)
  }

  lemma FilledLink(g: Past, more: seq<Byte>, bits: nat, v: nat, p: int, h: nat)
    requires LinkOk(g, bits, v, p, h) && forall r :: r in g.ins ==> r + 3 <= |g.data|
    ensures LinkOk(g.(data := g.data + more), bits, v, p, h)
  {
    hide KeyAt;
    var k := g.(data := g.data + more);
    forall r | r in k.ins && k.base + v < r < p && r + 3 <= |k.data|
      ensures KeyAt(k.data, r, bits) != h
    {
      FilledKey(g.data, more, r, bits);
    }
    if v != NIL {
      FilledKey(g.data, more, g.base + v, bits);
    }
  }

  lemma FilledKey(data: seq<Byte>, more: seq<Byte>, p: nat, bits: nat)
    requires p + 3 <= |data|
    ensures KeyAt(data + more, p, bits) == KeyAt(data, p, bits)
  {
    hide Key;
  }

  lemma FilledOk(z: Lz, g: Past, more: seq<Byte>, bits: nat)
    requires WindowOk(z, g) && ChainsOk(z, g, bits) && LinksBounded(z) && g.top < Pos(z, g)
    requires z.strstart + z.lookahead + |more| <= 2 * z.wSize
    ensures var r, k := Filled(z, more), g.(data := g.data + more);
            WindowOk(r, k) && ChainsOk(r, k, bits) && LinksBounded(r) && k.top < Pos(r, k)
  {
    hide KeyAt, Slot, LinkOk;
    var r, k := Filled(z, more), g.(data := g.data + more);
    forall q | q in g.ins
      ensures q + 3 <= |g.data|
    {
      OldPositions(z, g, bits, q);
    }
    forall h: nat
      ensures LinkOk(k, bits, HeadOf(r.head, h), k.top + 1, h)
    {
      FilledLink(g, more, bits, HeadOf(z.head, h), g.top + 1, h);
    }
    forall p | p in k.ins && p + z.wSize > k.top && p + 3 <= |k.data|
      ensures LinkOk(k, bits, r.prev[Slot(p, z.wSize)], p, KeyAt(k.data, p, bits))
    {
      OldPositions(z, g, bits, p);
      FilledKey(g.data, more, p, bits);
      FilledLink(g, more, bits, z.prev[Slot(p, z.wSize)], p, KeyAt(g.data, p, bits));
    }
  }

  /** What filling the window may change; strings move with it. */
  predicate SameStrings(z: Lz, r: Lz, moved: int) {
    && r == z.(window := r.window, head := r.head, prev := r.prev, insH := r.insH, strstart := r.strstart,
               lookahead := r.lookahead, blockStart := z.blockStart - moved, matchStart := z.matchStart - moved)
    && r.strstart == z.strstart - moved && r.lookahead >= z.lookahead
  }

  /** Makes room in the window if it is almost full. */
  method MakeRoom(z: Lz, bits: nat, ghost g: Past) returns (r: Lz, ghost k: Past)
    requires MatcherOk(z, g, bits) && z.lookahead < MIN_LOOKAHEAD
    ensures MatcherOk(r, k, bits) && r.wSize == z.wSize && r.strstart < z.wSize + MaxDist(z.wSize)
            && r.lookahead == z.lookahead
    ensures k == g.(base := k.base) && k.base >= g.base && SameStrings(z, r, k.base - g.base)
    ensures z.strstart >= 1 ==> r.strstart >= 1
    ensures k.base == g.base || r.strstart >= MaxDist(z.wSize)
  {
    hide ChainsOk, HashOk, LinksBounded;
    r, k := z, g;
    if z.strstart >= z.wSize + MaxDist(z.wSize) {
      SlideOk(z, g, bits);
      r, k := Slide(z), g.(base := g.base + z.wSize);
    }
  }

  /** Reads as much as there is room for, at least one byte. */
  method ReadMore(z: Lz, c: Config, input: seq<Byte>, next: nat, ghost g: Past)
    returns (r: Lz, next': nat, ghost k: Past)
    requires BitsOk(c) && MatcherOk(z, g, c.hashBits) && z.lookahead < MIN_LOOKAHEAD && next < |input|
    requires z.strstart < z.wSize + MaxDist(z.wSize)
    ensures MatcherOk(r, k, c.hashBits) && next < next' <= |input| && r.lookahead == z.lookahead + (next' - next)
    ensures k == g.(data := g.data + input[next..next']) && SameStrings(z, r, 0)
  {
    hide ChainsOk, Ready, Update, Key, LinksBounded;
    var more := 2 * z.wSize - z.lookahead - z.strstart;
    var n := |input| - next;
    if n > more {
      n := more;
    }
    next' := next + n;
    var bytes := input[next..next'];
    FilledOk(z, g, bytes, c.hashBits);
    r, k := Filled(z, bytes), g.(data := g.data + bytes);
    if r.lookahead >= MIN_MATCH {
      ThreeBytes(r, k, r.strstart);
      ReadyFresh(r.window[r.strstart], r.window[r.strstart + 1], c.hashBits);
      NewHashOk(r, k, c.hashBits, Update(r.window[r.strstart], r.window[r.strstart + 1], c.hashBits));
      r := r.(insH := Update(r.window[r.strstart], r.window[r.strstart + 1], c.hashBits));
    }
  }

  lemma SameTwice(z: Lz, r: Lz, q: Lz, a: int, b: int)
    requires SameStrings(z, r, a) && SameStrings(r, q, b)
    ensures SameStrings(z, q, a + b)
  {
  }

  /** fill_window: reads until there is enough lookahead, or no more input. */
  method FillWindow(z: Lz, c: Config, input: seq<Byte>, next: nat, ghost g: Past)
    returns (r: Lz, next': nat, ghost k: Past)
    requires BitsOk(c) && MatcherOk(z, g, c.hashBits) && z.lookahead < MIN_LOOKAHEAD && next <= |input|
    ensures MatcherOk(r, k, c.hashBits) && next <= next' <= |input|
    ensures r.strstart <= 2 * z.wSize - MIN_LOOKAHEAD && (r.lookahead >= MIN_LOOKAHEAD || next' == |input|)
    ensures k.data == g.data + input[next..next'] && k.ins == g.ins && k.top == g.top && k.base >= g.base
    ensures k.floor == g.floor
    ensures SameStrings(z, r, k.base - g.base) && r.lookahead == z.lookahead + (next' - next)
    ensures z.strstart >= 1 ==> r.strstart >= 1
    ensures k.base == g.base || r.strstart >= MaxDist(z.wSize)
  {
    hide MatcherOk, SameStrings;
    next' := next;
    r, k := MakeRoom(z, c.hashBits, g);
    assert g.data + input[next..next] == g.data;
    while r.lookahead < MIN_LOOKAHEAD && next' < |input|
      invariant MatcherOk(r, k, c.hashBits) && next <= next' <= |input|
      invariant r.wSize == z.wSize && r.strstart < z.wSize + MaxDist(z.wSize)
                && r.lookahead == z.lookahead + (next' - next)
      invariant k.data == g.data + input[next..next'] && k.ins == g.ins && k.top == g.top && k.base >= g.base
      invariant k.floor == g.floor
      invariant SameStrings(z, r, k.base - g.base) && (z.strstart >= 1 ==> r.strstart >= 1)
                && (k.base == g.base || r.strstart >= MaxDist(z.wSize))
      decreases |input| - next'
    {
      ghost var q, n := r, next';
      r, next', k := ReadMore(r, c, input, next', k);
      SameTwice(z, q, r, k.base - g.base, 0);
      SameStart(q, r);
      assert input[next..next'] == input[next..n] + input[n..next'];
    }
  }

  lemma SameStart(z: Lz, r: Lz)
    requires SameStrings(z, r, 0)
    ensures r.strstart == z.strstart && r.wSize == z.wSize
  {
  }

  lemma NewHashOk(z: Lz, g: Past, bits: nat, h: nat)
    requires WindowOk(z, g) && ChainsOk(z, g, bits) && LinksBounded(z)
    ensures WindowOk(z.(insH := h), g) && ChainsOk(z.(insH := h), g, bits) && LinksBounded(z.(insH := h))
  {
    hide KeyAt, Slot, LinkOk;
  }

  // --------------------------------------------------------------- longest_match

  /** The input at pos repeats that at start for len bytes. */
  ghost predicate MatchAt(data: seq<Byte>, pos: nat, start: int, len: nat, w: nat) {
    && 0 <= start < pos <= start + MaxDist(w) && pos + len <= |data|
    && data[start..start + len] == data[pos..pos + len]
  }

  /** The window at a and b agrees for n bytes. */
  predicate Agree(window: seq<Byte>, a: nat, b: nat, n: nat)
    requires a + n <= |window| && b + n <= |window|
  {
    window[a..a + n] == window[b..b + n]
  }

  lemma AgreeOne(window: seq<Byte>, a: nat, b: nat, n: nat)
    requires a + n < |window| && b + n < |window| && Agree(window, a, b, n) && window[a + n] == window[b + n]
    ensures Agree(window, a, b, n + 1)
  {
    assert window[a..a + n + 1] == window[a..a + n] + [window[a + n]];
    assert window[b..b + n + 1] == window[b..b + n] + [window[b + n]];
  }

  /** How far two strings that agree in their first three bytes agree, at most
      MAX_MATCH.  The source compares eight bytes per round. */
  method MatchLen(window: seq<Byte>, scan: nat, match_: nat, ghost sure: bool) returns (len: nat)
    requires scan + MAX_MATCH < |window| && match_ <= scan
    requires sure ==> Agree(window, match_, scan, 3)
    ensures MIN_MATCH <= len <= MAX_MATCH && (sure ==> Agree(window, match_, scan, len))
    ensures len < MAX_MATCH ==> window[scan + len] != window[match_ + len]
  {
    hide Agree;
    len := 3;
    while len < MAX_MATCH && window[scan + len] == window[match_ + len]
      invariant 3 <= len <= MAX_MATCH && (sure ==> Agree(window, match_, scan, len))
    {
      if sure {
        AgreeOne(window, match_, scan, len);
      }
      len := len + 1;
    }
  }

  /** A candidate on the chain of the string at strstart. */
  ghost predicate OnChain(z: Lz, g: Past, bits: nat, cur: nat) {
    && z.lookahead >= MIN_MATCH && g.top == Pos(z, g) && g.base + cur in g.ins && cur < z.strstart
    && g.base + cur + 3 <= |g.data| && Pos(z, g) + 3 <= |g.data|
    && KeyAt(g.data, g.base + cur, bits) == KeyAt(g.data, Pos(z, g), bits)
  }

  /** Its third byte need not be compared. */
  lemma ThreeAgree(z: Lz, g: Past, bits: nat, cur: nat)
    requires WindowOk(z, g) && OnChain(z, g, bits, cur) && bits >= 8
    requires z.window[cur] == z.window[z.strstart] && z.window[cur + 1] == z.window[z.strstart + 1]
    ensures Agree(z.window, cur, z.strstart, 3)
  {
    hide Key;
    var p := Pos(z, g);
    ThreeBytes(z, g, cur);
    ThreeBytes(z, g, z.strstart);
    ThirdByte(g.data[p], g.data[p + 1], g.data[g.base + cur + 2], g.data[p + 2], bits);
    assert z.window[cur..cur + 3] == [z.window[cur], z.window[cur + 1], z.window[cur + 2]];
    assert z.window[z.strstart..z.strstart + 3]
             == [z.window[z.strstart], z.window[z.strstart + 1], z.window[z.strstart + 2]];
  }

  /** The next candidate on the chain, if it is not too far back. */
  lemma NextOnChain(z: Lz, g: Past, bits: nat, cur: nat)
    requires WindowOk(z, g) && ChainsOk(z, g, bits) && OnChain(z, g, bits, cur) && z.strstart - cur <= MaxDist(z.wSize)
    ensures |z.prev| == z.wSize > 0
    ensures z.prev[Slot(cur, z.wSize)] != NIL ==> OnChain(z, g, bits, z.prev[Slot(cur, z.wSize)])
  {
    hide KeyAt, Slot, ChainsOk;
    SlotShift(g.base, cur, z.wSize);
    PrevLink(z, g, bits, g.base + cur);
  }

  /** Agreement in the window, as far as there is input, is a match. */
  lemma AgreeIsMatch(z: Lz, g: Past, cur: nat, n: nat, len: nat)
    requires WindowOk(z, g) && cur < z.strstart <= cur + MaxDist(z.wSize) && z.strstart + n <= 2 * z.wSize
    requires Agree(z.window, cur, z.strstart, n) && len <= n && len <= z.lookahead
    ensures MatchAt(g.data, Pos(z, g), g.base + cur, len, z.wSize)
  {
    var p, q := g.base + cur, Pos(z, g);
    var a, b := g.data[p..p + len], g.data[q..q + len];
    forall i | 0 <= i < len
      ensures a[i] == b[i]
    {
      assert z.window[cur..cur + n][i] == z.window[z.strstart..z.strstart + n][i];
      assert z.window[cur + i] == g.data[g.base + (cur + i)];
      assert z.window[z.strstart + i] == g.data[g.base + (z.strstart + i)];
    }
  }

  /** The match cannot be made longer: it has the greatest length, or reaches the end
      of the input, or the next bytes differ. */
  ghost predicate MatchEnds(data: seq<Byte>, pos: nat, start: int, len: nat) {
    len == MAX_MATCH || pos + len >= |data| || (0 <= start < pos && data[start + len] != data[pos + len])
  }

  lemma AgreeEnds(z: Lz, g: Past, cur: nat, n: nat, len: nat)
    requires WindowOk(z, g) && cur < z.strstart && n <= MAX_MATCH && z.strstart + n < 2 * z.wSize
    requires n < MAX_MATCH ==> z.window[z.strstart + n] != z.window[cur + n]
    requires len == if n <= z.lookahead then n else z.lookahead
    ensures MatchEnds(g.data, Pos(z, g), g.base + cur, len)
  {
    if len < MAX_MATCH && Pos(z, g) + len < |g.data| {
      assert z.window[cur + len] == g.data[g.base + (cur + len)];
      assert z.window[z.strstart + len] == g.data[g.base + (z.strstart + len)];
    }
  }

  /** The chain from cur on, as far as count strings and down to limit. */
  function ChainFrom(prev: seq<nat>, w: nat, cur: nat, count: nat, limit: nat): (r: seq<nat>)
    requires |prev| == w > 0
    decreases count
  {
    if count == 0 then []
    else
      var next := prev[Slot(cur, w)];
      [cur] + if next > limit then ChainFrom(prev, w, next, count - 1, limit) else []
  }

  /** How many strings longest_match tries, how far back, and what is long enough for it. */
  function EffortFor(c: Config, prev: nat): nat {
    if prev >= c.goodMatch then c.maxChain / 4 else c.maxChain
  }

  function Effort(z: Lz, c: Config): nat {
    EffortFor(c, z.prevLength)
  }

  function Limit(z: Lz): nat {
    if z.strstart > MaxDist(z.wSize) then z.strstart - MaxDist(z.wSize) else NIL
  }

  function Nice(z: Lz, c: Config): nat {
    if c.niceMatch > z.lookahead then z.lookahead else c.niceMatch
  }

  /** There is a match of length k at cur. */
  ghost predicate Repeats(z: Lz, g: Past, cur: nat, k: nat) {
    MatchAt(g.data, Pos(z, g), g.base + cur, k, z.wSize)
  }

  /** No match at cur is longer than n. */
  ghost predicate NoLonger(z: Lz, g: Past, cur: nat, n: nat) {
    forall k :: n < k <= MAX_MATCH ==> !Repeats(z, g, cur, k)
  }

  ghost predicate NoneLonger(z: Lz, g: Past, tried: seq<nat>, n: nat) {
    forall i :: 0 <= i < |tried| ==> NoLonger(z, g, tried[i], n)
  }

  lemma MatchBytes(z: Lz, g: Past, cur: nat, k: nat, i: nat)
    requires WindowOk(z, g) && Repeats(z, g, cur, k) && i < k
    ensures cur < z.strstart && z.strstart + i < |z.window| && z.window[cur + i] == z.window[z.strstart + i]
  {
    var p, q := g.base + cur, Pos(z, g);
    assert g.data[p..p + k][i] == g.data[q..q + k][i];
    assert z.window[cur + i] == g.data[g.base + (cur + i)];
    assert z.window[z.strstart + i] == g.data[g.base + (z.strstart + i)];
  }

  /** A difference at place i rules out all longer matches. */
  lemma Differs(z: Lz, g: Past, cur: nat, n: nat, i: nat)
    requires WindowOk(z, g) && cur <= z.strstart && z.strstart + i < |z.window|
             && z.window[cur + i] != z.window[z.strstart + i] && i <= n
    ensures NoLonger(z, g, cur, n)
  {
    hide WindowOk, Repeats;
    forall k | n < k <= MAX_MATCH
      ensures !Repeats(z, g, cur, k)
    {
      if Repeats(z, g, cur, k) {
        MatchBytes(z, g, cur, k, i);
      }
    }
  }

  /** No match reaches beyond the input. */
  lemma NoneBeyond(z: Lz, g: Past, cur: nat, m: nat, n: nat)
    requires WindowOk(z, g) && NoLonger(z, g, cur, m) && (m <= n || z.lookahead <= n)
    ensures NoLonger(z, g, cur, n)
  {
  }

  lemma NoneLongerStill(z: Lz, g: Past, tried: seq<nat>, m: nat, n: nat)
    requires WindowOk(z, g) && NoneLonger(z, g, tried, m) && (m <= n || z.lookahead <= n)
    ensures NoneLonger(z, g, tried, n)
  {
    hide WindowOk, NoLonger;
    forall i | 0 <= i < |tried|
      ensures NoLonger(z, g, tried[i], n)
    {
      NoneBeyond(z, g, tried[i], m, n);
    }
  }

  lemma NoneLongerMore(z: Lz, g: Past, tried: seq<nat>, cur: nat, n: nat)
    requires NoneLonger(z, g, tried, n) && NoLonger(z, g, cur, n)
    ensures NoneLonger(z, g, tried + [cur], n)
  {
    hide NoLonger;
  }

  /** The string at start agrees for just n bytes, as far as they matter. */
  ghost predicate Found(z: Lz, start: int, n: nat)
    requires n <= MAX_MATCH && z.strstart + MAX_MATCH < |z.window|
  {
    && 0 <= start < z.strstart <= start + MaxDist(z.wSize) && Agree(z.window, start, z.strstart, n)
    && (n < MAX_MATCH ==> z.window[z.strstart + n] != z.window[start + n])
  }

  /** How many of the strings from a on, and before b, are in the chain of the hash h. */
  ghost function KeysIn(data: seq<Byte>, ins: set<nat>, bits: nat, h: nat, a: nat, b: nat): (n: nat)
    ensures n <= if a < b then b - a else 0
    decreases b
  {
    if b <= a then 0
    else KeysIn(data, ins, bits, h, a, b - 1)
         + if b - 1 in ins && b + 2 <= |data| && KeyAt(data, b - 1, bits) == h then 1 else 0
  }

  lemma {:induction false} KeysMore(data: seq<Byte>, ins: set<nat>, bits: nat, h: nat, a: nat, b: nat, d: nat)
    requires b <= d
    ensures KeysIn(data, ins, bits, h, a, b) <= KeysIn(data, ins, bits, h, a, d)
    decreases d
  {
    if b == d {
    } else if d <= a {
    } else {
      KeysMore(data, ins, bits, h, a, b, d - 1);
    }
  }

  /** Every string of the chain is tried that is not too far down. */
  lemma {:induction false} IsTried(z: Lz, g: Past, bits: nat, cur: nat, count: nat, limit: nat, q: nat)
    requires WindowOk(z, g) && ChainsOk(z, g, bits) && OnChain(z, g, bits, cur)
    requires limit >= z.strstart - MaxDist(z.wSize) && g.base + limit < q <= g.base + cur && q in g.ins
    requires q + 3 <= |g.data| && KeyAt(g.data, q, bits) == KeyAt(g.data, Pos(z, g), bits)
    requires KeysIn(g.data, g.ins, bits, KeyAt(g.data, q, bits), q, g.base + cur + 1) <= count
    ensures |z.prev| == z.wSize > 0 && q - g.base in ChainFrom(z.prev, z.wSize, cur, count, limit)
    decreases count
  {
    hide KeyAt, Slot, LinkOk, ChainsOk, WindowOk, ChainFrom;
    var h := KeyAt(g.data, q, bits);
    NextOnChain(z, g, bits, cur);
    assert count > 0 by { KeysHere(g.data, g.ins, bits, h, q, g.base + cur); }
    ChainNext(z.prev, z.wSize, cur, count, limit);
    if q == g.base + cur {
    } else {
      var next := z.prev[Slot(cur, z.wSize)];
      SlotIs(z, g, cur);
      PrevLink(z, g, bits, g.base + cur);
      NextReaches(g, bits, next, g.base + cur, h, q);
      KeysHere(g.data, g.ins, bits, h, q, g.base + cur);
      KeysMore(g.data, g.ins, bits, h, q, g.base + next + 1, g.base + cur);
      IsTried(z, g, bits, next, count - 1, limit, q);
    }
  }

  lemma SlotIs(z: Lz, g: Past, cur: nat)
    requires WindowOk(z, g)
    ensures z.wSize > 0 && Slot(g.base + cur, z.wSize) == Slot(cur, z.wSize)
  {
    hide Slot;
    SlotShift(g.base, cur, z.wSize);
  }

  lemma NextReaches(g: Past, bits: nat, v: nat, p: int, h: nat, q: nat)
    requires LinkOk(g, bits, v, p, h) && q in g.ins && q < p && q + 3 <= |g.data| && KeyAt(g.data, q, bits) == h
    ensures q <= g.base + v && (v != NIL ==> g.base + v < p)
  {
    hide KeyAt;
  }

  lemma KeysHere(data: seq<Byte>, ins: set<nat>, bits: nat, h: nat, a: nat, b: nat)
    requires a <= b && b in ins && b + 3 <= |data| && KeyAt(data, b, bits) == h
    ensures KeysIn(data, ins, bits, h, a, b + 1) == KeysIn(data, ins, bits, h, a, b) + 1
  {
    hide KeyAt;
  }

  /** One round of longest_match: the string at cur, unless it cannot be longer than bestLen. */
  method TryString(z: Lz, c: Config, cur: nat, bestLen: nat, ghost sure: bool, ghost g: Past) returns (n: nat)
    requires ConfigOk(c) && WindowOk(z, g) && z.strstart <= 2 * z.wSize - MIN_LOOKAHEAD && cur <= z.strstart
             && 1 <= bestLen <= MAX_MATCH
    requires sure ==> OnChain(z, g, c.hashBits, cur)
    ensures bestLen <= n <= MAX_MATCH && z.strstart + MAX_MATCH < |z.window|
    ensures sure ==> NoLonger(z, g, cur, n)
    ensures sure && n > bestLen && z.strstart <= cur + MaxDist(z.wSize) ==> Found(z, cur, n)
  {
    hide WindowOk, OnChain, Agree, NoLonger;
    WindowSizes(z, g);
    var scan := z.strstart;
    if z.window[cur + bestLen] != z.window[scan + bestLen] {
      Differs(z, g, cur, bestLen, bestLen);
      return bestLen;
    }
    if z.window[cur + bestLen - 1] != z.window[scan + bestLen - 1] {
      Differs(z, g, cur, bestLen, bestLen - 1);
      return bestLen;
    }
    if z.window[cur] != z.window[scan] {
      Differs(z, g, cur, bestLen, 0);
      return bestLen;
    }
    if z.window[cur + 1] != z.window[scan + 1] {
      Differs(z, g, cur, bestLen, 1);
      return bestLen;
    }
    if sure {
      ThreeAgree(z, g, c.hashBits, cur);
      OnChainBefore(z, g, c.hashBits, cur);
    }
    n := MatchLen(z.window, scan, cur, sure);
    if n < MAX_MATCH {
      Differs(z, g, cur, n, n);
    } else {
      MostIsMost(z, g, cur);
    }
    if n <= bestLen {
      NoneBeyond(z, g, cur, n, bestLen);
      return bestLen;
    }
  }

  lemma MostIsMost(z: Lz, g: Past, cur: nat)
    ensures NoLonger(z, g, cur, MAX_MATCH)
  {
  }

  lemma ChainNext(prev: seq<nat>, w: nat, cur: nat, count: nat, limit: nat)
    requires |prev| == w > 0 && count > 0
    ensures var next := prev[Slot(cur, w)];
            && ChainFrom(prev, w, cur, count, limit)
                 == [cur] + (if next > limit then ChainFrom(prev, w, next, count - 1, limit) else [])
            && ChainFrom(prev, w, next, 0, limit) == []
  {
    hide Slot;
  }

  lemma FoundIs(z: Lz, g: Past, start: int, n: nat, len: nat)
    requires WindowOk(z, g) && n <= MAX_MATCH && z.strstart <= 2 * z.wSize - MIN_LOOKAHEAD
             && z.strstart + MAX_MATCH < |z.window|
    requires Found(z, start, n) && len == if n <= z.lookahead then n else z.lookahead
    ensures MatchAt(g.data, Pos(z, g), g.base + start, len, z.wSize)
            && MatchEnds(g.data, Pos(z, g), g.base + start, len)
  {
    hide WindowOk, Agree, MatchAt, MatchEnds;
    WindowSizes(z, g);
    AgreeIsMatch(z, g, start, n, len);
    AgreeEnds(z, g, start, n, len);
  }

  /** longest_match: a match longer than prevLength on the chain from curMatch, and unless it
      is long enough there is no longer one on the part of the chain that is tried.  sure says
      that curMatch heads the chain of this string; if not, the result is still at most the
      lookahead. */
  method LongestMatch(z: Lz, c: Config, curMatch: nat, ghost sure: bool, ghost g: Past) returns (len: nat, start: int)
    requires ConfigOk(c) && WindowOk(z, g) && ChainsOk(z, g, c.hashBits) && LinksBounded(z)
    requires z.strstart <= 2 * z.wSize - MIN_LOOKAHEAD && curMatch <= z.strstart <= curMatch + MaxDist(z.wSize)
    requires 1 <= z.prevLength <= MAX_MATCH && (sure ==> OnChain(z, g, c.hashBits, curMatch))
    ensures len <= z.lookahead && len <= MAX_MATCH && (z.lookahead >= 1 ==> len >= 1) && |z.prev| == z.wSize > 0
    ensures sure && len > z.prevLength ==> MatchAt(g.data, Pos(z, g), g.base + start, len, z.wSize)
                                           && MatchEnds(g.data, Pos(z, g), g.base + start, len)
                                           && g.floor <= g.base + start
    ensures var tried := ChainFrom(z.prev, z.wSize, curMatch, Effort(z, c), Limit(z));
            && (sure && len > z.prevLength ==> start in tried)
            && (sure && len < Nice(z, c) ==> NoneLonger(z, g, tried, if len < z.prevLength then z.prevLength else len))
  {
    hide WindowOk, ChainsOk, OnChain, Found, MatchAt, MatchEnds, Slot, NoneLonger, ChainFrom;
    WindowSizes(z, g);
    ChainSize(z, g, c.hashBits);
    var chainLength := c.maxChain;
    var bestLen, scan := z.prevLength, z.strstart;
    var cur: nat := curMatch;
    start := z.matchStart;
    var limit := if z.strstart > MaxDist(z.wSize) then z.strstart - MaxDist(z.wSize) else NIL;
    if z.prevLength >= c.goodMatch {
      chainLength := chainLength / 4;
    }
    var niceMatch := if c.niceMatch > z.lookahead then z.lookahead else c.niceMatch;
    ghost var tried, seen: seq<nat> := ChainFrom(z.prev, z.wSize, curMatch, chainLength, limit), [];
    NoneTried(z, g, bestLen);
    var go, enough := true, false;
    while go
      invariant cur <= scan && z.prevLength <= bestLen <= MAX_MATCH && (go ==> chainLength >= 1 && !enough)
      invariant sure && go ==> OnChain(z, g, c.hashBits, cur) && scan <= cur + MaxDist(z.wSize)
      invariant sure && bestLen > z.prevLength ==>
                  Found(z, start, bestLen) && start in seen && g.floor <= g.base + start
      invariant seen <= tried && (go ==> tried == seen + ChainFrom(z.prev, z.wSize, cur, chainLength, limit))
      invariant !go && !enough ==> tried == seen
      invariant enough ==> bestLen >= niceMatch
      invariant sure ==> NoneLonger(z, g, seen, bestLen)
      decreases go, chainLength
    {
      var n := TryString(z, c, cur, bestLen, sure, g);
      ChainNext(z.prev, z.wSize, cur, chainLength, limit);
      if sure {
        NoneLongerStill(z, g, seen, bestLen, n);
        NoneLongerMore(z, g, seen, cur, n);
        NextOnChain(z, g, c.hashBits, cur);
        OnChainSince(z, g, c.hashBits, cur);
      }
      seen := seen + [cur];
      if n > bestLen {
        start, bestLen := cur, n;
        enough := n >= niceMatch;
      }
      if enough {
        go := false;
      } else {
        cur := z.prev[Slot(cur, z.wSize)];
        chainLength := chainLength - 1;
        go := cur > limit && chainLength != 0;
      }
    }
    len := if bestLen <= z.lookahead then bestLen else z.lookahead;
    if sure {
      NoneLongerStill(z, g, seen, bestLen, if len < z.prevLength then z.prevLength else len);
      if len > z.prevLength {
        FoundIs(z, g, start, bestLen, len);
      }
    }
  }

  lemma NoneTried(z: Lz, g: Past, n: nat)
    ensures NoneLonger(z, g, [], n)
  {
  }

  /** The chains hold nothing from before the last full flush. */
  lemma OnChainSince(z: Lz, g: Past, bits: nat, cur: nat)
    requires OnChain(z, g, bits, cur) && ChainsOk(z, g, bits)
    ensures g.floor <= g.base + cur
  {
    hide ChainsOk, KeyAt;
    OldPositions(z, g, bits, g.base + cur);
  }

  lemma OnChainAhead(z: Lz, g: Past, bits: nat, cur: nat)
    requires OnChain(z, g, bits, cur)
    ensures z.lookahead >= MIN_MATCH
  {
  }

  lemma OnChainBefore(z: Lz, g: Past, bits: nat, cur: nat)
    requires OnChain(z, g, bits, cur)
    ensures cur < z.strstart
  {
  }

  lemma WindowSizes(z: Lz, g: Past)
    requires WindowOk(z, g)
    ensures |z.window| == 2 * z.wSize && z.strstart + z.lookahead <= 2 * z.wSize
  {
  }

  // ------------------------------------------------------- what a search is sure to find

  /** The string at q is in the chain of the one at pos, in reach, and among the first effort
      strings of the chain. */
  ghost predicate Seen(data: seq<Byte>, ins: set<nat>, bits: nat, effort: nat, w: nat, pos: nat, q: nat) {
    && q in ins && 0 < q < pos && pos - q < MaxDist(w) && pos + 3 <= |data|
    && KeyAt(data, q, bits) == KeyAt(data, pos, bits)
    && KeysIn(data, ins, bits, KeyAt(data, pos, bits), q, pos) <= effort
  }

  function Larger(a: nat, b: nat): nat {
    if a < b then b else a
  }

  /** A match that was found is one, and ends where it must. */
  ghost predicate FoundOk(data: seq<Byte>, w: nat, pos: nat, prev: nat, len: nat, start: int) {
    len >= MIN_MATCH && len > prev ==> MatchAt(data, pos, start, len, w) && MatchEnds(data, pos, start, len)
  }

  /** Unless the match found is long enough, no string that was seen has a longer one. */
  ghost predicate NoneSeen(data: seq<Byte>, ins: set<nat>, c: Config, w: nat, pos: nat, prev: nat, len: nat) {
    pos + 3 <= |data| && len < c.niceMatch && len < |data| - pos ==>
      forall q: nat, k: nat | Seen(data, ins, c.hashBits, EffortFor(c, prev), w, pos, q)
      && Larger(len, prev) < k <= MAX_MATCH ::
        !MatchAt(data, pos, q, k, w)
  }

  lemma SeenIsTried(z: Lz, g: Past, c: Config, curMatch: nat, q: nat)
    requires WindowOk(z, g) && ChainsOk(z, g, c.hashBits) && OnChain(z, g, c.hashBits, curMatch)
    requires NoneBetween(g, c.hashBits, curMatch, Pos(z, g), KeyAt(g.data, Pos(z, g), c.hashBits))
    requires Seen(g.data, g.ins, c.hashBits, Effort(z, c), z.wSize, Pos(z, g), q)
    ensures |z.prev| == z.wSize > 0 && g.base < q
            && q - g.base in ChainFrom(z.prev, z.wSize, curMatch, Effort(z, c), Limit(z))
  {
    hide KeyAt, ChainsOk, KeysIn, ChainFrom;
    var h, p := KeyAt(g.data, Pos(z, g), c.hashBits), Pos(z, g);
    KeysMore(g.data, g.ins, c.hashBits, h, q, g.base + curMatch + 1, p);
    IsTried(z, g, c.hashBits, curMatch, Effort(z, c), Limit(z), q);
  }

  /** What longest_match found, in terms of the input. */
  lemma SearchedAll(z: Lz, g: Past, c: Config, curMatch: nat, len: nat)
    requires WindowOk(z, g) && ChainsOk(z, g, c.hashBits) && OnChain(z, g, c.hashBits, curMatch)
    requires NoneBetween(g, c.hashBits, curMatch, Pos(z, g), KeyAt(g.data, Pos(z, g), c.hashBits))
             && |z.prev| == z.wSize > 0
    requires len < Nice(z, c) ==>
               NoneLonger(z, g, ChainFrom(z.prev, z.wSize, curMatch, Effort(z, c), Limit(z)), Larger(len, z.prevLength))
    ensures NoneSeen(g.data, g.ins, c, z.wSize, Pos(z, g), z.prevLength, len)
  {
    hide KeyAt, ChainsOk, ChainFrom, Limit, MatchAt, NoneBetween, OnChain;
    var p, n := Pos(z, g), Larger(len, z.prevLength);
    if p + 3 <= |g.data| && len < c.niceMatch && len < |g.data| - p {
      assert len < Nice(z, c);
      forall q: nat, k: nat | Seen(g.data, g.ins, c.hashBits, Effort(z, c), z.wSize, p, q) && n < k <= MAX_MATCH
        ensures !MatchAt(g.data, p, q, k, z.wSize)
      {
        SeenIsTried(z, g, c, curMatch, q);
        NotLonger(z, g, ChainFrom(z.prev, z.wSize, curMatch, Effort(z, c), Limit(z)), q, n, k);
      }
    }
  }

  lemma NotLonger(z: Lz, g: Past, tried: seq<nat>, q: nat, n: nat, k: nat)
    requires NoneLonger(z, g, tried, n) && q >= g.base && q - g.base in tried && n < k <= MAX_MATCH
    ensures !MatchAt(g.data, Pos(z, g), q, k, z.wSize)
  {
    hide MatchAt;
    var i :| 0 <= i < |tried| && tried[i] == q - g.base;
    assert NoLonger(z, g, tried[i], n);
    assert !Repeats(z, g, tried[i], k);
  }

  /** Without a string in reach at the head of the chain, none is seen. */
  lemma NothingSeen(z: Lz, g: Past, c: Config, head: nat, len: nat)
    requires Pos(z, g) + 3 <= |g.data| ==>
               NoneBetween(g, c.hashBits, head, Pos(z, g), KeyAt(g.data, Pos(z, g), c.hashBits))
    requires WindowOk(z, g) && (head == NIL || z.strstart - head > MaxDist(z.wSize))
    ensures NoneSeen(g.data, g.ins, c, z.wSize, Pos(z, g), z.prevLength, len)
  {
    hide KeyAt, KeysIn, MatchAt;
  }

  /** longest_match_fast: only the head of the chain is tried. */
  method LongestMatchFast(z: Lz, c: Config, curMatch: nat, ghost sure: bool, ghost g: Past)
    returns (len: nat, start: int)
    requires ConfigOk(c) && WindowOk(z, g)
    requires z.strstart <= 2 * z.wSize - MIN_LOOKAHEAD && curMatch <= z.strstart <= curMatch + MaxDist(z.wSize)
    requires sure ==> OnChain(z, g, c.hashBits, curMatch)
    ensures len <= MAX_MATCH && (len >= MIN_MATCH ==> len <= z.lookahead && start == curMatch)
            && (z.lookahead >= 1 ==> len >= 1)
    ensures sure && len >= MIN_MATCH ==>
              MatchAt(g.data, Pos(z, g), g.base + start, len, z.wSize)
              && MatchEnds(g.data, Pos(z, g), g.base + start, len)
    ensures sure && Repeats(z, g, curMatch, MIN_MATCH) ==> len >= MIN_MATCH
  {
    hide WindowOk, OnChain, Agree, MatchAt, MatchEnds, Repeats;
    WindowSizes(z, g);
    start := z.matchStart;
    if Repeats(z, g, curMatch, MIN_MATCH) {
      MatchBytes(z, g, curMatch, MIN_MATCH, 0);
      MatchBytes(z, g, curMatch, MIN_MATCH, 1);
    }
    if z.window[curMatch] != z.window[z.strstart] || z.window[curMatch + 1] != z.window[z.strstart + 1] {
      return MIN_MATCH - 1, start;
    }
    if sure {
      ThreeAgree(z, g, c.hashBits, curMatch);
      OnChainBefore(z, g, c.hashBits, curMatch);
      OnChainAhead(z, g, c.hashBits, curMatch);
    }
    var n := MatchLen(z.window, z.strstart, curMatch, sure);
    start := curMatch;
    len := if n <= z.lookahead then n else z.lookahead;
    if sure {
      AgreeIsMatch(z, g, curMatch, n, len);
      AgreeEnds(z, g, curMatch, n, len);
    }
  }
}
