/** The deflate and zlib formats of RFC 1951 and RFC 1950, as a grammar of bit strings and of what
    they stand for. */
module DeflateFormat {
  import opened Bits
  import opened Canonical
  import opened InflateTable
  import opened TreeTables
  import opened CodeLengths
  import M = InflateMachine
  import H = HeaderDecode
  import S = StreamDecode
  import T = Tokens

  // ------------------------------------------------------------------ bytes and copies

  /** A symbol with the extra bits behind it. */
  datatype Coded = Coded(sym: nat, extra: nat)

  /** A byte, or a copy of what came before. */
  datatype Part = Plain(byte: Byte) | Copy(length: Coded, distance: Coded)

  /** Section 3.2.5 of RFC 1951: the extra bits of a length symbol, and the least length. */
  function LengthBits(k: nat): (r: nat) {
    if k < 8 || k == 28 then 0 else k / 4 - 1
  }

  function LengthBase(k: nat): (r: nat) {
    if k < 8 then 3 + k else if k == 28 then 258 else 3 + (4 + k % 4) * Pow2(LengthBits(k))
  }

  function DistanceBits(k: nat): (r: nat) {
    if k < 4 then 0 else k / 2 - 1
  }

  function DistanceBase(k: nat): (r: nat) {
    if k < 4 then 1 + k else 1 + (2 + k % 2) * Pow2(DistanceBits(k))
  }

  /** The code has the symbol. */
  predicate Has(lens: seq<nat>, s: nat) {
    s < |lens| && lens[s] != 0
  }

  predicate PartOk(llens: seq<nat>, dlens: seq<nat>, p: Part) {
    match p
    case Plain(b) => Has(llens, b)
    case Copy(l, d) =>
      && 257 <= l.sym <= 285 && Has(llens, l.sym) && l.extra < Pow2(LengthBits(l.sym - 257))
      && d.sym <= 29 && Has(dlens, d.sym) && d.extra < Pow2(DistanceBits(d.sym))
  }

  function Length(l: Coded): (r: nat)
    requires l.sym >= 257
  {
    LengthBase(l.sym - 257) + l.extra
  }

  function Distance(d: Coded): (r: nat)
    ensures r >= 1
  {
    DistanceBase(d.sym) + d.extra
  }

  function PartBits(llens: seq<nat>, dlens: seq<nat>, p: Part): (r: seq<bool>)
    requires PartOk(llens, dlens, p)
  {
    match p
    case Plain(b) => T.SymBits(llens, b)
    case Copy(l, d) =>
      T.SymBits(llens, l.sym) + (ToBits(l.extra, LengthBits(l.sym - 257))
        + (T.SymBits(dlens, d.sym) + ToBits(d.extra, DistanceBits(d.sym))))
  }

  /** A copy starts within what has been written. */
  predicate InReach(h: seq<Byte>, p: Part) {
    p.Copy? ==> p.length.sym >= 257 && Distance(p.distance) <= |h|
  }

  function Written(h: seq<Byte>, p: Part): (r: seq<Byte>) {
    if p.Plain? then h + [p.byte]
    else if InReach(h, p) then T.CopyBack(h, Distance(p.distance), Length(p.length))
    else h
  }

  predicate PartsOk(llens: seq<nat>, dlens: seq<nat>, ps: seq<Part>) {
    forall i :: 0 <= i < |ps| ==> PartOk(llens, dlens, ps[i])
  }

  function PartsBits(llens: seq<nat>, dlens: seq<nat>, ps: seq<Part>): (r: seq<bool>)
    requires PartsOk(llens, dlens, ps)
  {
    if ps == [] then [] else PartBits(llens, dlens, ps[0]) + PartsBits(llens, dlens, ps[1..])
  }

  predicate AllInReach(h: seq<Byte>, ps: seq<Part>)
    decreases |ps|
  {
    ps == [] || (InReach(h, ps[0]) && AllInReach(Written(h, ps[0]), ps[1..]))
  }

  function AllWritten(h: seq<Byte>, ps: seq<Part>): (r: seq<Byte>)
    decreases |ps|
  {
    if ps == [] then h else AllWritten(Written(h, ps[0]), ps[1..])
  }

  /** The parts of a block and the end of it. */
  predicate BodyOk(llens: seq<nat>, dlens: seq<nat>, ps: seq<Part>) {
    PartsOk(llens, dlens, ps) && Has(llens, T.END_BLOCK)
  }

  function BodyBits(llens: seq<nat>, dlens: seq<nat>, ps: seq<Part>): (r: seq<bool>)
    requires BodyOk(llens, dlens, ps)
  {
    PartsBits(llens, dlens, ps) + T.SymBits(llens, T.END_BLOCK)
  }

  // ----------------------------------------------------------------------- blocks

  /** Section 3.2.7: the numbers of lengths, the code for them, and the lengths in that code. */
  datatype Header = Header(nlen: nat, ndist: nat, ncode: nat, clens: seq<nat>, items: seq<Item>)

  /** A repetition needs a length before it. */
  predicate ItemsOk(x: Header) {
    && AllCodable(x.clens, x.items) && (x.items != [] ==> x.items[0].sym != REP_3_6)
    && |EnterAll([], x.items)| == x.nlen + x.ndist
  }

  function LLens(x: Header): (r: seq<nat>) {
    var all := EnterAll([], x.items);
    if x.nlen <= |all| then all[..x.nlen] else []
  }

  function DLens(x: Header): (r: seq<nat>) {
    var all := EnterAll([], x.items);
    if x.nlen <= |all| then all[x.nlen..] else []
  }

  predicate HeaderOk(x: Header) {
    && 257 <= x.nlen <= 286 && 1 <= x.ndist <= 30 && 4 <= x.ncode <= BL_CODES
    && |x.clens| == BL_CODES && (forall p :: 0 <= p < BL_CODES ==> x.clens[p] < 8)
    && H.RestZero(x.clens, x.ncode) && Complete(x.clens)
    && ItemsOk(x) && M.CodeOk(LENS, LLens(x)) && M.CodeOk(DISTS, DLens(x))
  }

  function HeaderBits(x: Header): (r: seq<bool>)
    requires HeaderOk(x)
  {
    ToBits(x.nlen - 257, 5) + ToBits(x.ndist - 1, 5) + ToBits(x.ncode - 4, 4)
      + (H.OrderBits(x.clens, 0, x.ncode) + ItemsBits(x.clens, x.items))
  }

  /** The lengths of the code for lengths come in the order 16, 17, 18, 0, and then from 8 to both
      sides. */
  function Place(k: nat): (r: nat)
    requires k < BL_CODES
  {
    if k < 3 then 16 + k else if k == 3 then 0 else if k % 2 == 0 then 6 + k / 2 else 9 - k / 2
  }

  lemma OrderTable(k: nat)
    requires k < BL_CODES
    ensures M.ORDER[k] == Place(k)
  {
  }

  /** The bits between the type of a stored block and the next byte may be any. */
  datatype Block = Stored(pad: seq<bool>, data: seq<Byte>) | Fixed(parts: seq<Part>)
                 | Dynamic(header: Header, parts: seq<Part>)

  /** Fills up to a whole byte behind n bits. */
  predicate FillsUp(pad: seq<bool>, n: nat) {
    |pad| < 8 && (n + |pad|) % 8 == 0
  }

  predicate BlockOk(b: Block) {
    match b
    case Stored(_, data) => |data| < 65536
    case Fixed(ps) => BodyOk(M.FixedLens(), M.FixedDists(), ps)
    case Dynamic(x, ps) => HeaderOk(x) && BodyOk(LLens(x), DLens(x), ps)
  }

  function TypeOf(b: Block): (r: nat) {
    match b
    case Stored(_, _) => 0
    case Fixed(_) => 1
    case Dynamic(_, _) => 2
  }

  function Content(b: Block): (r: seq<bool>)
    requires BlockOk(b)
  {
    match b
    case Stored(pad, data) => pad + (ToBits(|data|, 16) + ToBits(65535 - |data|, 16) + BytesToBits(data))
    case Fixed(ps) => BodyBits(M.FixedLens(), M.FixedDists(), ps)
    case Dynamic(x, ps) => HeaderBits(x) + BodyBits(LLens(x), DLens(x), ps)
  }

  function BlockBits(b: Block, last: bool): (r: seq<bool>)
    requires BlockOk(b)
  {
    [last] + ToBits(TypeOf(b), 2) + Content(b)
  }

  /** The block may stand behind pos bits and the output h. */
  predicate Follows(b: Block, pos: nat, h: seq<Byte>) {
    BlockOk(b) && if b.Stored? then FillsUp(b.pad, pos + 3) else AllInReach(h, b.parts)
  }

  function After(b: Block, h: seq<Byte>): (r: seq<Byte>) {
    if b.Stored? then h + b.data else AllWritten(h, b.parts)
  }

  // ---------------------------------------------------------------------- streams

  predicate BlocksOk(bs: seq<Block>) {
    forall i :: 0 <= i < |bs| ==> BlockOk(bs[i])
  }

  /** Each block may stand where it does. */
  predicate InPlace(bs: seq<Block>, pos: nat, h: seq<Byte>)
    requires BlocksOk(bs)
    decreases |bs|
  {
    bs == [] || (Follows(bs[0], pos, h) && InPlace(bs[1..], pos + |BlockBits(bs[0], |bs| == 1)|, After(bs[0], h)))
  }

  /** Only the last block says that it is the last. */
  function BlocksBits(bs: seq<Block>): (r: seq<bool>)
    requires BlocksOk(bs)
  {
    if bs == [] then [] else BlockBits(bs[0], |bs| == 1) + BlocksBits(bs[1..])
  }

  function AfterAll(bs: seq<Block>, h: seq<Byte>): (r: seq<Byte>)
    decreases |bs|
  {
    if bs == [] then h else AfterAll(bs[1..], After(bs[0], h))
  }

  /** A stream: the two bytes of the zlib header, blocks, and bits up to a whole byte. */
  datatype Stream = Stream(cmf: Byte, flg: Byte, blocks: seq<Block>, pad: seq<bool>)

  /** Section 2.2 of RFC 1950: a multiple of 31, method 8, a window of at most 32K and no
      dictionary. */
  predicate ZlibOk(cmf: Byte, flg: Byte) {
    (256 * cmf + flg) % 31 == 0 && cmf % 16 == 8 && cmf / 16 <= 7 && flg / 32 % 2 == 0
  }

  function HeadBits(wrap: bool, z: Stream): (r: seq<bool>) {
    if wrap then ToBits(z.cmf, 8) + ToBits(z.flg, 8) else []
  }

  predicate StreamOk(wrap: bool, z: Stream) {
    var n := |HeadBits(wrap, z)|;
    && (wrap ==> ZlibOk(z.cmf, z.flg)) && z.blocks != [] && BlocksOk(z.blocks) && InPlace(z.blocks, n, [])
    && FillsUp(z.pad, n + |BlocksBits(z.blocks)|)
  }

  /** What the stream stands for. */
  function Output(z: Stream): (r: seq<Byte>) {
    AfterAll(z.blocks, [])
  }

  /** The check value, most significant byte first. */
  function CheckBytes(check: nat): (r: seq<Byte>)
    requires check < 0x1_0000_0000
  {
    [check / 16777216, check / 65536 % 256, check / 256 % 256, check % 256]
  }

  /** Behind the blocks of a zlib stream stands the Adler-32 of its output. */
  function StreamBits(wrap: bool, z: Stream): (r: seq<bool>)
    requires StreamOk(wrap, z)
  {
    HeadBits(wrap, z) + (BlocksBits(z.blocks) + (z.pad
      + if wrap then BytesToBits(CheckBytes(S.Check(Output(z)))) else []))
  }

  // ---------------------------------------------------------------- the decoder's tables

  /** inftrees.c has the lengths and distances of the format. */
  lemma LengthTable(k: nat)
    requires k <= 28
    ensures var op := SymOp(LENS, k + 257);
            && op != 0 && !M.IsEnd(op) && !M.IsInvalid(op) && M.ExtraBits(op) == LengthBits(k)
            && SymVal(LENS, k + 257) == LengthBase(k)
  {
    Pow2Values();
    Pow2One();
    hide Pow2;
  }

  lemma DistanceTable(k: nat)
    requires k <= 29
    ensures var op := SymOp(DISTS, k);
            && !M.IsInvalid(op) && M.ExtraBits(op) == DistanceBits(k) && SymVal(DISTS, k) == DistanceBase(k)
  {
    if k < 16 {
      NearTable(k);
    } else {
      FarTable(k);
    }
  }

  lemma NearTable(k: nat)
    requires k < 16
    ensures var op := SymOp(DISTS, k);
            && !M.IsInvalid(op) && M.ExtraBits(op) == DistanceBits(k) && SymVal(DISTS, k) == DistanceBase(k)
  {
    Pow2Values();
    Pow2One();
    hide Pow2;
  }

  lemma FarTable(k: nat)
    requires 16 <= k <= 29
    ensures var op := SymOp(DISTS, k);
            && !M.IsInvalid(op) && M.ExtraBits(op) == DistanceBits(k) && SymVal(DISTS, k) == DistanceBase(k)
  {
    Pow2Values();
    hide Pow2;
  }
}
