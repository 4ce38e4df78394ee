/** The Adler-32 checksum byte by byte, section 2.2 of RFC 1950. */
module AdlerSpec {
  import opened Bits

  const BASE: nat := 65521

  datatype Sums = Sums(a: nat, b: nat)

  const START: Sums := Sums(1, 0)

  predicate Reduced(s: Sums) {
    s.a < BASE && s.b < BASE
  }

  function Add(s: Sums, x: Byte): (r: Sums) {
    var a := (s.a + x) % BASE;
    Sums(a, (s.b + a) % BASE)
  }

  function Feed(s: Sums, bytes: seq<Byte>): (r: Sums)
    ensures Reduced(s) ==> Reduced(r)
    decreases |bytes|
  {
    if bytes == [] then s else Feed(Add(s, bytes[0]), bytes[1..])
  }

  /** The two sums packed into 32 bits. */
  function Packed(s: Sums): (r: nat) {
    s.b * 65536 + s.a
  }

  lemma {:induction false} FeedAppend(s: Sums, x: seq<Byte>, y: seq<Byte>)
    ensures Feed(s, x + y) == Feed(Feed(s, x), y)
    decreases |x|
  {
    if x == [] {
      assert x + y == y;
    } else {
      FeedAppend(Add(s, x[0]), x[1..], y);
      assert (x + y)[1..] == x[1..] + y;
    }
  }
}
