/** deflate.c: an input that deflate_slow has to cut into 96 matches with the codes of the
    tables, and 31 literals. */
module DefaultInput {
  import opened Bits
  import opened Matcher
  import opened RollingHash
  import opened LazyParse
  import opened ForcedParse
  import opened TreeTables
  import opened DefaultCounts
  import opened DefaultBlock
  import opened DefaultTokens
  import T = Tokens

  // ------------------------------------------------------------------------ the 96 matches

  /** The codes of match i, its length, where it begins behind the history, and how far
      before the end of the history what it copies begins. */
  function LAt(i: nat): nat {
    if i < 2 then 0 else if i < 3 then 1 else if i < 5 then 2 else if i < 6 then 3 else if i < 8 then 4
    else if i < 9 then 5 else if i < 11 then 6 else if i < 12 then 7 else if i < 14 then 8 else if i < 15 then 9
    else if i < 17 then 10 else if i < 18 then 11 else if i < 22 then 12 else if i < 23 then 13
    else if i < 25 then 14 else if i < 26 then 15 else if i < 34 then 16 else if i < 38 then 17
    else if i < 46 then 18 else if i < 48 then 19 else if i < 56 then 20 else if i < 60 then 21
    else if i < 68 then 22 else if i < 70 then 23 else if i < 86 then 24 else if i < 90 then 25
    else if i < 92 then 26 else 27
  }

  function DAt(i: nat): nat {
    if i < 3 then 11 else if i < 6 then 14 else if i < 9 then 17 else if i < 15 then 20 else if i < 21 then 22
    else if i < 27 then 24 else if i < 30 then 25 else if i < 54 then 26 else if i < 60 then 27
    else if i < 84 then 28 else 29
  }

  function Len(i: nat): nat {
    if i < 2 then 3 else if i < 3 then 4 else if i < 5 then 5 else if i < 6 then 6 else if i < 8 then 7
    else if i < 9 then 8 else if i < 11 then 9 else if i < 12 then 10 else if i < 14 then 11
    else if i < 15 then 13 else if i < 17 then 15 else if i < 18 then 17 else if i < 22 then 19
    else if i < 23 then 23 else if i < 25 then 27 else if i < 26 then 31 else if i < 34 then 35
    else if i < 38 then 43 else if i < 46 then 51 else if i < 48 then 59 else if i < 56 then 67
    else if i < 60 then 83 else if i < 68 then 99 else if i < 70 then 115 else if i < 86 then 131
    else if i < 90 then 163 else if i < 92 then 195 else 227
  }

  function Start(i: nat): nat {
    if i < 2 then 3 * i else if i < 3 then 6 + 4 * (i - 2) else if i < 5 then 10 + 5 * (i - 3)
    else if i < 6 then 20 + 6 * (i - 5) else if i < 8 then 26 + 7 * (i - 6) else if i < 9 then 40 + 8 * (i - 8)
    else if i < 11 then 48 + 9 * (i - 9) else if i < 12 then 66 + 10 * (i - 11)
    else if i < 14 then 76 + 11 * (i - 12) else if i < 15 then 98 + 13 * (i - 14)
    else if i < 17 then 111 + 15 * (i - 15) else if i < 18 then 141 + 17 * (i - 17)
    else if i < 22 then 158 + 19 * (i - 18) else if i < 23 then 234 + 23 * (i - 22)
    else if i < 25 then 257 + 27 * (i - 23) else if i < 26 then 311 + 31 * (i - 25)
    else if i < 34 then 342 + 35 * (i - 26) else if i < 38 then 622 + 43 * (i - 34)
    else if i < 46 then 794 + 51 * (i - 38) else if i < 48 then 1202 + 59 * (i - 46)
    else if i < 56 then 1320 + 67 * (i - 48) else if i < 60 then 1856 + 83 * (i - 56)
    else if i < 68 then 2188 + 99 * (i - 60) else if i < 70 then 2980 + 115 * (i - 68)
    else if i < 86 then 3210 + 131 * (i - 70) else if i < 90 then 5306 + 163 * (i - 86)
    else if i < 92 then 5958 + 195 * (i - 90) else 6348 + 227 * (i - 92)
  }

  function Ago(i: nat): int {
    if i < 3 then 64 - 8 * i else if i < 6 then 160 - 8 * (i - 3) else if i < 9 then 464 - 16 * (i - 6)
    else if i < 15 then 1408 - 16 * (i - 9) else if i < 21 then 2816 - 24 * (i - 15)
    else if i < 27 then 5632 - 40 * (i - 21) else if i < 30 then 7680 - 40 * (i - 27)
    else if i < 54 then 10496 - 72 * (i - 30) else if i < 60 then 14080 - 88 * (i - 54)
    else if i < 84 then 19456 - 136 * (i - 60) else 24576 - 232 * (i - 84)
  }

  const HIST: nat := 24584
  const END: nat := HIST + 7256

  lemma StartNext(i: nat)
    requires i < 96
    ensures Start(i + 1) == Start(i) + Len(i) && LAt(i) < 28 && Len(i) == LLow(LAt(i)) + 3
  {
  }

  lemma LenFacts(i: nat)
    requires i < 96
    ensures 3 <= Len(i) <= 227 && (Len(i) == 3 ==> i < 2) && (Len(i) % 8 == 0 ==> i == 8)
  {
  }

  lemma AgoFacts(i: nat)
    requires i < 96
    ensures 40 <= Ago(i) <= 24576 && Ago(i) % 8 == 0 && Len(i) < Ago(i)
  {
  }

  lemma {:induction false} StartMono(i: nat, j: nat)
    requires i <= j <= 96
    ensures Start(i) + (j - i) <= Start(j)
    decreases j
  {
    hide Start, Len, LAt;
    if i == j {
    } else {
      StartMono(i, j - 1);
      StartNext(j - 1);
      LenFacts(j - 1);
    }
  }

  lemma DistOf(i: nat)
    requires i < 96
    ensures DAt(i) < D_CODES && DLow(DAt(i)) < Start(i) + Ago(i) <= DLow(DAt(i)) + Pow2(DBits(DAt(i)))
    ensures Start(i) + Ago(i) < 32000
  {
    hide Pow2;
    Powers();
  }

  /** What is copied lies apart. */
  lemma Apart(i: nat, j: nat)
    requires i < j < 96
    ensures Ago(i) - Len(i) > Ago(j) || Ago(j) - Len(j) > Ago(i)
  {
  }

  // -------------------------------------------------------------------------------- the input

  /** Byte r of the history: it tells r modulo 8, and the first four of eight bytes tell r. */
  function Tell(r: nat): (x: Byte)
    requires r < 32768
    ensures x % 8 == r % 8
  {
    var k := r / 8;
    8 * (if r % 8 % 3 == 0 then k % 32 else if r % 8 % 3 == 1 then k / 32 % 32 else k / 1024) + r % 8
  }

  lemma Told(a: nat, b: nat)
    requires a < 30000 && b < 30000 && b % 8 <= 1
    requires Tell(a) == Tell(b) && Tell(a + 1) == Tell(b + 1) && Tell(a + 2) == Tell(b + 2)
    ensures a == b
  {
    var k, l := a / 8, b / 8;
    assert a % 8 == b % 8;
    assert (a + 1) / 8 == (a + 2) / 8 == k && (b + 1) / 8 == (b + 2) / 8 == l;
    assert (a + 1) % 8 == a % 8 + 1 && (a + 2) % 8 == a % 8 + 2;
    assert k % 32 == l % 32 && k / 32 % 32 == l / 32 % 32 && k / 1024 == l / 1024;
    ThreeDigits(k);
    ThreeDigits(l);
  }

  lemma ThreeDigits(k: nat)
    ensures k == k % 32 + 32 * (k / 32 % 32) + 1024 * (k / 1024)
  {
  }

  /** The match that stands for byte o behind the history, among the first k. */
  function PieceOf(o: nat, k: nat): (j: nat)
    requires k <= 96 && o < Start(k)
    ensures j < k && Start(j) <= o < Start(j + 1)
  {
    if Start(k - 1) <= o then k - 1 else PieceOf(o, k - 1)
  }

  lemma PieceIs(j: nat, o: nat, k: nat)
    requires j < k <= 96 && o < Len(j)
    ensures Start(j) + o < Start(k) && PieceOf(Start(j) + o, k) == j
  {
    hide Start, Len;
    StartNext(j);
    StartMono(j + 1, k);
    var i := PieceOf(Start(j) + o, k);
    if i < j {
      StartMono(i + 1, j);
    } else if i > j {
      StartMono(j + 1, i);
    }
  }

  lemma AllStarts()
    ensures Start(96) == 7256 && Start(0) == 0
  {
  }

  /** The byte of the history that byte r is a copy of. */
  function Src(r: nat): (v: nat)
    requires r < END
    ensures v < HIST
  {
    AllStarts();
    if r < HIST then r
    else
      var o := r - HIST;
      var j := PieceOf(o, 96);
      AgoFacts(j);
      StartNext(j);
      HIST - Ago(j) + (o - Start(j))
  }

  function Data(): (d: seq<Byte>)
    ensures |d| == END + 31 && (forall r :: 0 <= r < END ==> d[r] == Tell(Src(r)))
    ensures forall j :: 0 <= j < 31 ==> d[END + j] == LitNo(j)
  {
    seq(END, r requires 0 <= r < END => Tell(Src(r))) + seq(31, j requires 0 <= j < 31 => LitNo(j))
  }

  lemma SrcIn(j: nat, o: nat)
    requires j < 96 && o < Len(j)
    ensures HIST + Start(j) + o < END && Ago(j) <= HIST && Src(HIST + Start(j) + o) == HIST - Ago(j) + o
  {
    hide Start, Len, Ago;
    AllStarts();
    AgoFacts(j);
    PieceIs(j, o, 96);
  }

  /** What is copied goes on, or a match begins. */
  lemma SrcNext(r: nat) returns (k: nat)
    requires r + 1 < END
    ensures Src(r + 1) == Src(r) + 1 || (k < 96 && r + 1 == HIST + Start(k) && Src(r + 1) % 8 == 0)
  {
    hide Start, Len, Ago, PieceOf;
    AllStarts();
    if r + 1 < HIST {
      k := 0;
    } else {
      k := PieceOf(r + 1 - HIST, 96);
      AgoFacts(k);
      StartNext(k);
      var o := r + 1 - HIST - Start(k);
      if o == 0 {
        SrcIn(k, 0);
      } else {
        SrcIn(k, o);
        SrcIn(k, o - 1);
      }
    }
  }

  // -------------------------------------------------------------------------- what is alike

  function PieceAt(i: nat): (x: Piece)
    requires i < 96
    ensures 0 < x.q < x.p && x.q % 8 == 0 && x.q + x.n < HIST
  {
    AgoFacts(i);
    Piece(HIST + Start(i), HIST - Ago(i), Len(i))
  }

  lemma ThreeSame(d: seq<Byte>, x: nat, p: nat)
    requires Alike(d, x, p)
    ensures x + 3 <= |d| && p + 3 <= |d| && d[x] == d[p] && d[x + 1] == d[p + 1] && d[x + 2] == d[p + 2]
  {
    assert d[x..x + 3][0] == d[x] && d[x..x + 3][1] == d[x + 1] && d[x..x + 3][2] == d[x + 2];
    assert d[p..p + 3][0] == d[p] && d[p..p + 3][1] == d[p + 1] && d[p..p + 3][2] == d[p + 2];
  }

  lemma PieceBytes(i: nat, o: nat)
    requires i < 96 && o < Len(i)
    ensures HIST + Start(i) + o < END && HIST - Ago(i) + o >= 0
    ensures Data()[HIST + Start(i) + o] == Tell(HIST - Ago(i) + o)
  {
    hide Start, Len, Ago, Tell, Src, Data;
    SrcIn(i, o);
    AgoFacts(i);
  }

  /** Unless a match begins, what is copied goes on. */
  lemma GoesOn(r: nat)
    requires r + 1 < END && Src(r + 1) % 8 != 0
    ensures Src(r + 1) == Src(r) + 1
  {
    hide Src, Start;
    var k := SrcNext(r);
  }

  lemma SameClass(r: nat, v: nat)
    requires r < END && v < 32768 && Data()[r] == Tell(v)
    ensures Src(r) % 8 == v % 8 && Tell(Src(r)) == Tell(v)
  {
    hide Src, Tell, Data;
  }

  lemma SmallClass(q: nat, e: nat)
    requires q % 8 == 0
    ensures (q + e) % 8 == e % 8
  {
  }

  /** The strings that begin like match i, or like its second byte. */
  lemma AlikeSrc(i: nat, e: nat, x: nat)
    requires i < 96 && e <= 1 && e + 3 <= Len(i) && x < HIST + Start(i) + e && Alike(Data(), x, HIST + Start(i) + e)
    ensures x < END && Src(x) == HIST - Ago(i) + e
  {
    hide Start, Len, Ago, Tell, Src, Data, Alike;
    AgoFacts(i);
    var q := HIST - Ago(i);
    PieceBytes(i, e);
    PieceBytes(i, e + 1);
    PieceBytes(i, e + 2);
    ThreeSame(Data(), x, HIST + Start(i) + e);
    SmallClass(q, e);
    SmallClass(q, e + 1);
    SmallClass(q, e + 2);
    SameClass(x, q + e);
    SameClass(x + 1, q + e + 1);
    SameClass(x + 2, q + e + 2);
    GoesOn(x);
    GoesOn(x + 1);
    Told(Src(x), q + e);
  }

  lemma AlikeAt(i: nat, e: nat, x: nat)
    requires i < 96 && e <= 1 && e + 3 <= Len(i) && x < HIST + Start(i) + e && Alike(Data(), x, HIST + Start(i) + e)
    ensures x == HIST - Ago(i) + e
  {
    hide Start, Len, Ago, Tell, Data, Alike, PieceOf;
    AlikeSrc(i, e, x);
    AllStarts();
    if x >= HIST {
      var j := PieceOf(x - HIST, 96);
      StartNext(j);
      LenFacts(i);
      AgoFacts(j);
      if j < i {
        Apart(j, i);
      } else if i < j {
        Apart(i, j);
      }
    }
  }

  lemma LitAt(j: nat)
    requires j < 31
    ensures Data()[END + j] == LitNo(j)
  {
    hide Data, LitNo;
  }

  /** What follows the two copies differs. */
  lemma Differ(i: nat)
    requires i < 96
    ensures var x := PieceAt(i); x.p + x.n < |Data()| && Data()[x.q + x.n] != Data()[x.p + x.n]
  {
    hide Start, Len, Ago, Tell, Data, Src, LitNo;
    var x := PieceAt(i);
    StartNext(i);
    AllStarts();
    SrcHistory(x.q + x.n);
    if i == 95 {
      LastByte();
      LitAt(0);
    } else {
      LenFacts(i + 1);
      PieceBytes(i + 1, 0);
      NextClass(i);
    }
  }

  lemma NextClass(i: nat)
    requires i < 95
    ensures 0 <= HIST - Ago(i + 1) < HIST && Tell(PieceAt(i).q + PieceAt(i).n) != Tell(HIST - Ago(i + 1))
  {
    hide Start, Len, Ago, Tell;
    var x := PieceAt(i);
    LenFacts(i);
    AgoFacts(i + 1);
    if i == 8 {
      NinthByte();
    } else {
      SmallClass(x.q, x.n);
      ClassDiffers(x.q + x.n, HIST - Ago(i + 1));
    }
  }

  lemma ClassDiffers(a: nat, b: nat)
    requires a < 32768 && b < 32768 && a % 8 != b % 8
    ensures Tell(a) != Tell(b)
  {
    hide Tell;
  }

  lemma SrcHistory(r: nat)
    requires r < HIST
    ensures Data()[r] == Tell(r)
  {
    hide Data, Tell;
  }

  lemma LastByte()
    ensures PieceAt(95).q + PieceAt(95).n == 2787 && Tell(2787) == 227 && LitNo(0) == 11
  {
  }

  lemma NinthByte()
    ensures PieceAt(8).q + PieceAt(8).n == 24160 && HIST - Ago(9) == 23176 && Tell(24160) != Tell(23176)
  {
  }

  // ------------------------------------------------------------------------- what is forced

  const WINDOW: nat := 32768

  lemma PieceCopies(i: nat)
    requires i < 96
    ensures var x := PieceAt(i); x.p + x.n <= END && Data()[x.q..x.q + x.n] == Data()[x.p..x.p + x.n]
  {
    hide Start, Len, Ago, Tell, Data, Src;
    LenFacts(i);
    StartNext(i);
    StartMono(i + 1, 96);
    AllStarts();
    var x, d := PieceAt(i), Data();
    var a, b := d[x.q..x.q + x.n], d[x.p..x.p + x.n];
    forall o | 0 <= o < x.n
      ensures a[o] == b[o]
    {
      PieceBytes(i, o);
      SrcHistory(x.q + o);
    }
  }

  lemma NotTooFar(i: nat)
    requires i < 96
    ensures Start(i) + Ago(i) < 32000
  {
    hide Start, Ago, DAt, Pow2, DLow, DBits;
    DistOf(i);
  }

  lemma PieceMatches(i: nat)
    requires i < 96
    ensures var x := PieceAt(i); OneMatch(Data(), x.p, x.q, x.n, WINDOW)
  {
    hide Start, Len, Ago, Data, Alike, Src, Tell, LitNo;
    var d, x := Data(), PieceAt(i);
    LenFacts(i);
    NotTooFar(i);
    PieceCopies(i);
    Differ(i);
    forall y | 0 <= y < x.p && x.p - y <= MaxDist(WINDOW) && y != x.q
      ensures !Alike(d, y, x.p)
    {
      if Alike(d, y, x.p) {
        AlikeAt(i, 0, y);
      }
    }
  }

  /** Behind a match of three bytes no string begins as one did before. */
  lemma ShortAlike(i: nat, x: nat)
    requires i < 2 && x < HIST + Start(i) + 1
    ensures !Alike(Data(), x, HIST + Start(i) + 1)
  {
    hide Tell, Src, Data, Alike, Start, Len, Ago;
    EarlyBytes();
    if Alike(Data(), x, HIST + Start(i) + 1) {
      ShortBytes(i, x);
      NoOther(i, x);
      if i == 1 && x == HIST + 1 {
        PieceBytes(1, 0);
      }
    }
  }

  lemma ShortBytes(i: nat, x: nat)
    requires i < 2 && x < HIST + Start(i) + 1 && Alike(Data(), x, HIST + Start(i) + 1)
    ensures x + 2 < END && Src(x + 1) % 8 == 2 && Src(x + 2) % 8 == 0 && Ago(i + 1) <= HIST
    ensures Data()[x + 2] == Tell(HIST - Ago(i + 1))
  {
    hide Tell, Src, Data, Alike, Start, Len, Ago;
    EarlyBytes();
    ThreeSame(Data(), x, HIST + Start(i) + 1);
    PieceBytes(i, 2);
    PieceBytes(i + 1, 0);
    SmallClass(HIST - Ago(i), 2);
    SameClass(x + 1, HIST - Ago(i) + 2);
    SameClass(x + 2, HIST - Ago(i + 1));
  }

  lemma EarlyBytes()
    ensures Start(0) == 0 && Start(1) == 3 && Start(2) == 6 && Ago(1) == 56 && Ago(2) == 48
    ensures Len(0) == 3 && Len(1) == 3 && Len(2) == 4 && Ago(0) == 64
    ensures Tell(HIST - 56) != Tell(HIST - 48)
  {
  }

  lemma NoOther(i: nat, x: nat)
    requires i < 2 && x < HIST + Start(i) + 1 && Src(x + 1) % 8 == 2 && Src(x + 2) % 8 == 0
    ensures i == 1 && x == HIST + 1
  {
    hide PieceOf, Len, Ago, Start;
    EarlyBytes();
    var k := SrcNext(x + 1);
    if k >= 2 {
      StartMono(2, k);
    }
  }

  lemma NoneLonger(i: nat, y: int, l: nat)
    requires i < 96 && PieceAt(i).n < l <= MAX_MATCH
    ensures !MatchAt(Data(), PieceAt(i).p + 1, y, l, WINDOW)
  {
    hide Start, Len, Ago, Data, Alike, Src, Tell, LitNo;
    var d, p, n := Data(), PieceAt(i).p + 1, PieceAt(i).n;
    if MatchAt(d, p, y, l, WINDOW) {
      LenFacts(i);
      MatchAlike(d, p, y, l, WINDOW);
      if n == 3 {
        ShortAlike(i, y);
      } else {
        AlikeAt(i, 1, y);
        Differ(i);
        LastSame(d, p, y, l, n - 1);
      }
    }
  }

  lemma LastSame(d: seq<Byte>, p: nat, y: int, l: nat, k: nat)
    requires MatchAt(d, p, y, l, WINDOW) && k < l
    ensures d[y + k] == d[p + k]
  {
    assert d[y..y + l][k] == d[p..p + l][k];
  }

  lemma PieceIsTaken(i: nat)
    requires i < 96
    ensures NoneOver(Data(), PieceAt(i).p + 1, PieceAt(i).n, WINDOW)
  {
    hide Start, Len, Ago, Data, Alike;
    var d, p, n := Data(), PieceAt(i).p + 1, PieceAt(i).n;
    forall y, l | n < l <= MAX_MATCH
      ensures !MatchAt(d, p, y, l, WINDOW)
    {
      NoneLonger(i, y, l);
    }
  }

  lemma LitsApart(i: nat, j: nat)
    requires LitNo(i) == LitNo(j)
    ensures i == j
  {
  }

  lemma LitClass(j: nat)
    ensures LitNo(j) % 8 == if j % 2 == 0 then 3 else 7
  {
  }

  lemma LitAlike(p: nat, x: nat)
    requires END <= p && x < p
    ensures !Alike(Data(), x, p)
  {
    hide LitNo, Src, Tell, Alike, Data;
    if Alike(Data(), x, p) {
      var j := p - END;
      ThreeSame(Data(), x, p);
      LitAt(j);
      LitAt(j + 1);
      if x >= END {
        LitAt(x - END);
        LitsApart(x - END, j);
      } else if x + 1 >= END {
        LitAt(x + 1 - END);
        LitsApart(x + 1 - END, j + 1);
      } else {
        LitClass(j);
        LitClass(j + 1);
        var k := SrcNext(x);
      }
    }
  }

  lemma NothingAlike()
    ensures NoneAlike(Data(), END, WINDOW)
  {
    hide Data, Alike;
    forall p | END <= p < |Data()|
      ensures OnlyAt(Data(), p, -1, WINDOW)
    {
      forall x | 0 <= x < p && p - x <= MaxDist(WINDOW) && x != -1
        ensures !Alike(Data(), x, p)
      {
        LitAlike(p, x);
      }
    }
  }

  // ------------------------------------------------------------------ how long the chains are

  /** How many bytes before match i can be 2 modulo 8. */
  function Before(i: nat): nat {
    if i == 0 then HIST / 8 else Before(i - 1) + (Len(i - 1) + 5) / 8
  }

  lemma {:induction false} BeforeBound(i: nat)
    requires i <= 96
    ensures 8 * Before(i) <= HIST + Start(i) + 5 * i
  {
    hide Start, Len;
    if i == 0 {
    } else {
      BeforeBound(i - 1);
      StartNext(i - 1);
    }
  }

  /** The same before byte r. */
  function Twos(r: nat): nat
    requires r < END
  {
    AllStarts();
    if r < HIST then (r + 5) / 8
    else
      var j := PieceOf(r - HIST, 96);
      Before(j) + (r - HIST - Start(j) + 5) / 8
  }

  lemma TwosIn(j: nat, o: nat)
    requires j < 96 && o < Len(j)
    ensures HIST + Start(j) + o < END && Twos(HIST + Start(j) + o) == Before(j) + (o + 5) / 8
  {
    hide Start, Len, Ago, Before;
    SrcIn(j, o);
    PieceIs(j, o, 96);
  }

  lemma TwosNext(r: nat)
    requires r + 1 < END
    ensures Twos(r + 1) >= Twos(r) + if Src(r) % 8 == 2 then 1 else 0
  {
    hide Start, Len, Ago, PieceOf, Before;
    AllStarts();
    if r + 1 < HIST {
      Eighths(r);
    } else if r + 1 == HIST {
      LenFacts(0);
      TwosIn(0, 0);
      assert Before(0) == HIST / 8 by { BeforeFirst(); }
    } else {
      var j := PieceOf(r - HIST, 96);
      StartNext(j);
      TwosInside(j, r - HIST - Start(j));
    }
  }

  lemma Eighths(o: nat)
    ensures (o + 6) / 8 == (o + 5) / 8 + if o % 8 == 2 then 1 else 0
  {
  }

  lemma BeforeFirst()
    ensures Before(0) == HIST / 8
  {
  }

  lemma BeforeNext(j: nat)
    ensures Before(j + 1) == Before(j) + (Len(j) + 5) / 8
  {
    hide Len;
  }

  lemma TwosInside(j: nat, o: nat)
    requires j < 96 && o < Len(j) && HIST + Start(j) + o + 1 < END
    ensures var r := HIST + Start(j) + o; Twos(r + 1) >= Twos(r) + if Src(r) % 8 == 2 then 1 else 0
  {
    hide Start, Len, Ago, PieceOf, Twos, Src, Before;
    AgoFacts(j);
    StartNext(j);
    TwosIn(j, o);
    SrcIn(j, o);
    Eighths(o);
    SmallClass(HIST - Ago(j), o);
    BeforeNext(j);
    if o + 1 < Len(j) {
      TwosIn(j, o + 1);
    } else {
      LastIs(j);
      LenFacts(j + 1);
      TwosIn(j + 1, 0);
    }
  }

  lemma LastIs(j: nat)
    requires j < 96 && HIST + Start(j + 1) < END
    ensures j < 95
  {
    hide Len, Ago;
    AllStarts();
  }

  lemma TwoClass(d: seq<Byte>, end: nat, x: nat, h: nat, bits: nat)
    requires x + 3 <= end <= END && d == Data()[..end] && bits >= 8 && KeyAt(d, x, bits) == h && h % 8 == 2
    ensures Src(x + 2) % 8 == 2
  {
    hide Key, Src, Tell, Data;
    KeyEnds(d[x], d[x + 1], d[x + 2], bits);
  }

  lemma {:induction false} KeysFew(d: seq<Byte>, end: nat, ins: set<nat>, bits: nat, h: nat, a: nat, b: nat)
    requires end <= END && d == Data()[..end] && a <= b && b + 2 < end && bits >= 8 && h % 8 == 2
    ensures KeysIn(d, ins, bits, h, a, b) + Twos(a + 2) <= Twos(b + 2)
    decreases b
  {
    hide KeyAt, Twos, Src, Data;
    if a == b {
    } else {
      KeysFew(d, end, ins, bits, h, a, b - 1);
      TwosNext(b + 1);
      if KeyAt(d, b - 1, bits) == h {
        TwoClass(d, end, b - 1, h, bits);
      }
    }
  }

  lemma PieceIsNear(i: nat, bits: nat)
    requires i < 96 && bits >= 8
    ensures var x := PieceAt(i); WithinEffort(Data(), x.p, x.q, bits, 4096)
  {
    hide Data, KeyAt, Start, Len, Ago, Tell, Src, LitNo;
    var d, x := Data(), PieceAt(i);
    forall ins: set<nat>, end: nat | x.p + 3 <= end <= |d|
      ensures KeysIn(d[..end], ins, bits, KeyAt(d[..end], x.p, bits), x.q, x.p) <= 4096
    {
      ChainIsShort(i, bits, ins, end);
    }
  }

  lemma ChainIsShort(i: nat, bits: nat, ins: set<nat>, end: nat)
    requires i < 96 && bits >= 8 && PieceAt(i).p + 3 <= end <= |Data()|
    ensures var d, x := Data()[..end], PieceAt(i); KeysIn(d, ins, bits, KeyAt(d, x.p, bits), x.q, x.p) <= 4096
  {
    hide Data, KeyAt, Start, Len, Ago, Tell, Src, LitNo, Twos, PieceAt;
    var d, x := Data()[..end], PieceAt(i);
    var low := if end <= END then end else END;
    PieceTwos(i);
    PieceKey(i, bits, end);
    KeysCut(Data(), end, low, ins, bits, KeyAt(d, x.p, bits), x.q, x.p);
    KeysFew(Data()[..low], low, ins, bits, KeyAt(d, x.p, bits), x.q, x.p);
  }

  lemma PieceTwos(i: nat)
    requires i < 96
    ensures var x := PieceAt(i); x.q <= x.p && x.p + 3 <= END && Twos(x.p + 2) <= Twos(x.q + 2) + 4096
  {
    hide Start, Len, Ago, Before, PieceOf;
    LenFacts(i);
    AgoFacts(i);
    TwosIn(i, 2);
    BeforeBound(i);
    NotTooFar(i);
    StartMono(i, 96);
    AllStarts();
    StartNext(i);
    StartMono(i + 1, 96);
  }

  /** The hash of match i is 2 modulo 8. */
  lemma PieceKey(i: nat, bits: nat, end: nat)
    requires i < 96 && bits >= 8 && PieceAt(i).p + 3 <= end <= |Data()|
    ensures KeyAt(Data()[..end], PieceAt(i).p, bits) % 8 == 2
  {
    hide Key, Data, Start, Len, Ago, Tell, Src, LitNo;
    var d, p := Data()[..end], PieceAt(i).p;
    LenFacts(i);
    AgoFacts(i);
    PieceBytes(i, 2);
    SmallClass(HIST - Ago(i), 2);
    KeyEnds(d[p], d[p + 1], d[p + 2], bits);
  }

  /** Bytes behind a string do not matter for its hash. */
  lemma {:induction false} KeysCut(data: seq<Byte>, end: nat, low: nat, ins: set<nat>, bits: nat, h: nat, a: nat,
                                   b: nat)
    requires low <= end <= |data| && b + 2 < low
    ensures KeysIn(data[..end], ins, bits, h, a, b) == KeysIn(data[..low], ins, bits, h, a, b)
    decreases b
  {
    if b <= a {
    } else {
      KeysCut(data, end, low, ins, bits, h, a, b - 1);
    }
  }

  // ----------------------------------------------------------------------------- all of them

  function Row(): (r: seq<Piece>)
    ensures |r| == 96 && forall i :: 0 <= i < 96 ==> r[i] == PieceAt(i) && r[i].q < r[i].p
  {
    seq(96, i requires 0 <= i < 96 => PieceAt(i))
  }

  lemma RowIsForced(c: Config)
    requires c.niceMatch >= 227 && c.maxChain == 4096 && c.hashBits >= 8 && c.strategy != Z_FILTERED
    ensures ForcedRow(Data(), c, WINDOW, Row())
  {
    hide Data, OneMatch, NoneOver, WithinEffort, Row, Start, Len, Ago;
    var row := Row();
    forall i | 0 <= i < 96
      ensures ForcedPiece(Data(), c, WINDOW, row[i])
    {
      PieceMatches(i);
      PieceIsTaken(i);
      PieceIsNear(i, c.hashBits);
      LenFacts(i);
      if i < 2 {
        ShortIsNear(i);
      }
    }
    forall i | 0 <= i < 95
      ensures row[i + 1].p == row[i].p + row[i].n
    {
      StartNext(i);
    }
  }

  lemma ShortIsNear(i: nat)
    requires i < 2
    ensures Start(i) + Ago(i) <= TOO_FAR
  {
  }

  /** The codes of its tokens are those of the tables. */
  lemma RowIsCoded(t: Tables) returns (ls: seq<nat>, ds: seq<nat>)
    requires LengthsOk(t) && DistsOk(t)
    ensures Listed(ls, ds) && Coded(t, TokensOf(Row()), ls, ds) && ds[95] >= 28
  {
    hide LengthsOk, DistsOk, LCount, DCount, Occ, Weigh, T.LSym, T.DSym, Row, TokensOf, LAt, DAt, Start, Len, Ago, Runs;
    ls := LengthList();
    ds := DistList();
    var ms := TokensOf(Row());
    forall i | 0 <= i < 96
      ensures T.TokenOk(ms[i]) && T.LSym(t, ms[i]) == 257 + ls[i] && T.DSym(t, ms[i]) == ds[i]
    {
      ListAt(i);
      PieceCodes(t, i);
    }
    ListAt(95);
    LastCode();
  }

  lemma LastCode()
    ensures DAt(95) == 29
  {
  }

  lemma ListAt(i: nat)
    requires i < 96
    ensures i < |Runs(LCounts(), 28)| && Runs(LCounts(), 28)[i] == LAt(i)
    ensures i < |Runs(DCounts(), 30)| && Runs(DCounts(), 30)[i] == DAt(i)
  {
    hide Runs, LCount, DCount, LTotal, DTotal, LFirst, DFirst;
    ListPlaces(i);
    LTotalIs(LAt(i));
    LTotalIs(LAt(i) + 1);
    LFirstIs(LAt(i));
    LFirstIs(LAt(i) + 1);
    RunsAt(LCounts(), 28, LAt(i), i);
    DTotalIs(DAt(i));
    DTotalIs(DAt(i) + 1);
    DFirstIs(DAt(i));
    DFirstIs(DAt(i) + 1);
    RunsAt(DCounts(), 30, DAt(i), i);
  }

  lemma ListPlaces(i: nat)
    requires i < 96
    ensures LAt(i) < 28 && LFirst(LAt(i)) <= i < LFirst(LAt(i) + 1)
    ensures DAt(i) < 30 && DFirst(DAt(i)) <= i < DFirst(DAt(i) + 1)
  {
  }

  lemma PieceCodes(t: Tables, i: nat)
    requires LengthsOk(t) && DistsOk(t) && i < 96
    ensures var tok := T.Match(Start(i) + Ago(i), Len(i));
            T.TokenOk(tok) && T.LSym(t, tok) == 257 + LAt(i) && T.DSym(t, tok) == DAt(i)
  {
    hide LengthsOk, DistsOk, LAt, DAt, Start, Len, Ago, Pow2, LBits, DBits, LLow, DLow, DCode;
    AgoFacts(i);
    LenFacts(i);
    StartNext(i);
    DistOf(i);
    LengthCodeOf(t, LAt(i));
    FirstLengths(LAt(i));
    DistCodeOf(t, DAt(i), Start(i) + Ago(i) - 1);
  }

  lemma RowIsKnown(ins: set<nat>)
    requires forall r :: 0 <= r && r + 3 <= HIST ==> r in ins
    ensures forall i :: 0 <= i < 96 ==> Known(ins, HIST, Row()[i])
  {
    hide Row, Start, Len, Ago;
    forall i | 0 <= i < 96
      ensures Known(ins, HIST, Row()[i])
    {
      LenFacts(i);
    }
  }

  lemma LitsAre()
    ensures |Data()| == END + 31 && LiteralsOf(Data()[END..]) == Ends()
  {
    hide Data, LitNo;
    forall j | 0 <= j < 31
      ensures Data()[END..][j] == LitNo(j)
    {
      LitAt(j);
    }
  }
}
