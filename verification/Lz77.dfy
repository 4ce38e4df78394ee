/** deflate.c: the tokens of the match finder stand for the input. */
module Lz77 {
  import opened Bits
  import opened Tokens

  lemma {:induction false} ExpandAppend(h: seq<Byte>, a: seq<Token>, b: seq<Token>)
    ensures Expand(h, a + b) == Expand(Expand(h, a), b)
    decreases |a|
  {
    hide Apply;
    if a == [] {
      assert a + b == b;
    } else {
      assert (a + b)[1..] == a[1..] + b;
      ExpandAppend(Apply(h, a[0]), a[1..], b);
    }
  }

  lemma {:induction false} WithinAppend(h: seq<Byte>, a: seq<Token>, b: seq<Token>)
    requires Within(h, a) && Within(Expand(h, a), b)
    ensures Within(h, a + b)
    decreases |a|
  {
    hide Apply, TokenOk;
    if a == [] {
      assert a + b == b;
    } else {
      assert (a + b)[1..] == a[1..] + b;
      WithinAppend(Apply(h, a[0]), a[1..], b);
    }
  }

  /** Copying back a stretch of the input that repeats is reading on. */
  lemma {:induction false} CopyIsInput(data: seq<Byte>, p: nat, dist: nat, len: nat)
    requires 1 <= dist <= p && p + len <= |data| && data[p - dist..p - dist + len] == data[p..p + len]
    ensures CopyBack(data[..p], dist, len) == data[..p + len]
    decreases len
  {
    if len == 0 {
    } else {
      var q := p - dist;
      assert data[q..q + len][0] == data[q] && data[p..p + len][0] == data[p];
      assert data[..p] + [data[..p][p - dist]] == data[..p + 1];
      assert data[q + 1..q + len] == data[q..q + len][1..];
      assert data[p + 1..p + len] == data[p..p + len][1..];
      CopyIsInput(data, p + 1, dist, len - 1);
    }
  }

  /** The tokens, after the first b bytes of the input, stand for it up to n. */
  ghost predicate Stands(data: seq<Byte>, b: int, ts: seq<Token>, n: nat) {
    0 <= b <= n <= |data| && Within(data[..b], ts) && Expand(data[..b], ts) == data[..n]
  }

  lemma StandsLiteral(data: seq<Byte>, b: int, ts: seq<Token>, n: nat)
    requires Stands(data, b, ts, n) && n < |data|
    ensures Stands(data, b, ts + [Literal(data[n])], n + 1)
  {
    hide Within, Expand;
    var t := [Literal(data[n])];
    ExpandAppend(data[..b], ts, t);
    OneToken(data[..n], t[0]);
    WithinAppend(data[..b], ts, t);
    assert data[..n] + [data[n]] == data[..n + 1];
  }

  lemma OneToken(h: seq<Byte>, t: Token)
    ensures Expand(h, [t]) == Apply(h, t)
    ensures TokenOk(t) && (t.Match? ==> t.dist <= |h|) ==> Within(h, [t])
  {
    assert [t][1..] == [];
  }

  lemma StandsMatch(data: seq<Byte>, b: int, ts: seq<Token>, n: nat, start: nat, len: nat)
    requires Stands(data, b, ts, n) && start < n <= start + 32768 && n + len <= |data| && MIN_MATCH <= len <= MAX_MATCH
    requires data[start..start + len] == data[n..n + len]
    ensures Stands(data, b, ts + [Match(n - start, len)], n + len)
  {
    hide Within, Expand;
    var t := [Match(n - start, len)];
    ExpandAppend(data[..b], ts, t);
    CopyIsInput(data, n, n - start, len);
    OneToken(data[..n], t[0]);
    WithinAppend(data[..b], ts, t);
  }

  lemma StandsMore(data: seq<Byte>, more: seq<Byte>, b: int, ts: seq<Token>, n: nat)
    requires Stands(data, b, ts, n)
    ensures Stands(data + more, b, ts, n)
  {
    assert (data + more)[..b] == data[..b];
    assert (data + more)[..n] == data[..n];
  }

  lemma StandsNone(data: seq<Byte>, n: nat)
    requires n <= |data|
    ensures Stands(data, n, [], n)
  {
  }

  // --------------------------------------------------------- behind a full flush

  lemma {:induction false} CopyLonger(x: seq<Byte>, h: seq<Byte>, dist: nat, len: nat)
    requires 1 <= dist <= |h|
    ensures CopyBack(x + h, dist, len) == x + CopyBack(h, dist, len)
    decreases len
  {
    if len == 0 {
    } else {
      var c := h[|h| - dist];
      assert (x + h)[|x + h| - dist] == c && x + h + [c] == x + (h + [c]);
      CopyLonger(x, h + [c], dist, len - 1);
    }
  }

  lemma ApplyLonger(x: seq<Byte>, h: seq<Byte>, t: Token)
    requires t.Match? ==> 1 <= t.dist <= |h|
    ensures Apply(x + h, t) == x + Apply(h, t)
  {
    match t
    case Literal(c) => assert x + h + [c] == x + (h + [c]);
    case Match(dist, len) => CopyLonger(x, h, dist, len);
  }

  /** What tokens stand for does not depend on bytes that none of them reaches. */
  lemma {:induction false} ExpandLonger(x: seq<Byte>, h: seq<Byte>, ts: seq<Token>)
    requires Within(h, ts)
    ensures Within(x + h, ts) && Expand(x + h, ts) == x + Expand(h, ts)
    decreases |ts|
  {
    hide Apply;
    if ts == [] {
    } else {
      ApplyLonger(x, h, ts[0]);
      ExpandLonger(x, Apply(h, ts[0]), ts[1..]);
    }
  }

  /** The same as Stands, and no token reaches in front of floor. */
  ghost predicate StandsSince(data: seq<Byte>, floor: nat, b: int, ts: seq<Token>, n: int) {
    floor <= b <= n <= |data| && Stands(data[floor..], b - floor, ts, n - floor)
  }

  lemma SinceStands(data: seq<Byte>, floor: nat, b: int, ts: seq<Token>, n: int)
    requires StandsSince(data, floor, b, ts, n)
    ensures Stands(data, b, ts, n)
  {
    hide Within, Expand;
    var x, h := data[..floor], data[floor..][..b - floor];
    ExpandLonger(x, h, ts);
    assert h == data[floor..b] && data[floor..][..n - floor] == data[floor..n];
    assert x + h == data[..b] && x + data[floor..][..n - floor] == data[..n];
  }

  lemma SinceLiteral(data: seq<Byte>, floor: nat, b: int, ts: seq<Token>, n: int)
    requires StandsSince(data, floor, b, ts, n) && n < |data|
    ensures StandsSince(data, floor, b, ts + [Literal(data[n])], n + 1)
  {
    hide Stands;
    StandsLiteral(data[floor..], b - floor, ts, n - floor);
  }

  lemma SinceMatch(data: seq<Byte>, floor: nat, b: int, ts: seq<Token>, n: int, start: int, len: nat)
    requires StandsSince(data, floor, b, ts, n) && floor <= start < n <= start + 32768 && n + len <= |data|
    requires MIN_MATCH <= len <= MAX_MATCH && data[start..start + len] == data[n..n + len]
    ensures StandsSince(data, floor, b, ts + [Match(n - start, len)], n + len)
  {
    hide Stands;
    var d := data[floor..];
    assert d[start - floor..start - floor + len] == data[start..start + len];
    assert d[n - floor..n - floor + len] == data[n..n + len];
    StandsMatch(d, b - floor, ts, n - floor, start - floor, len);
  }

  lemma SinceMore(data: seq<Byte>, more: seq<Byte>, floor: nat, b: int, ts: seq<Token>, n: int)
    requires StandsSince(data, floor, b, ts, n)
    ensures StandsSince(data + more, floor, b, ts, n)
  {
    hide Stands;
    assert (data + more)[floor..] == data[floor..] + more;
    StandsMore(data[floor..], more, b - floor, ts, n - floor);
  }

  lemma SinceNone(data: seq<Byte>, floor: nat, n: nat)
    requires floor <= n <= |data|
    ensures StandsSince(data, floor, n, [], n)
  {
    StandsNone(data[floor..], n - floor);
  }
}
