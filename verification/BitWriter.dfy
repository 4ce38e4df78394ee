/** trees.c: the bit buffer of the compressor.

    Up to 16 bits wait in bi_buf; whole words and bytes go to pending_buf.  What has been
    sent is the pending bytes' bits followed by those waiting. */
module BitWriter {
  import opened Bits

  const BUF_SIZE: nat := 16

  lemma JoinBits(buf: nat, valid: nat, value: nat, length: nat)
    requires buf < Pow2(valid) && value < Pow2(length)
    ensures var full := buf + Shl(value, valid);
            && ToBits(full, valid + length) == ToBits(buf, valid) + ToBits(value, length)
            && full < Pow2(valid + length) && Shr(full, valid) == value
  {
    hide Low, Shr, Shl, Pow2, ToBits;
    var full := buf + Shl(value, valid);
    ShlLow(value, buf, valid);
    ToBitsAppend(full, valid, length);
    ToBitsLow(full, valid, valid);
    ShlNext(value, valid);
    ShlMono(value + 1, Pow2(length), valid);
    ShlPow2(length, valid);
  }

  /** Two bytes, low byte first, are the bits of a word. */
  lemma WordBits(w: nat)
    requires w < 65536
    ensures w % 256 < 256 && w / 256 < 256
    ensures BytesToBits([w % 256, w / 256]) == ToBits(w, 16)
  {
    hide Low, Shr, ToBits, Pow2;
    Pow2Values();
    LowIsMod(w, 8);
    ToBitsAppend(w, 8, 8);
    ToBitsLow(w, 8, 8);
    var lo, hi := w % 256, w / 256;
    assert [lo, hi] == [lo] + [hi];
    BytesToBitsAppend([lo], [hi]);
    OneByteBits(lo);
    OneByteBits(hi);
  }

  lemma {:induction false} ZeroBits(n: nat)
    ensures ToBits(0, n) == Zeros(n)
  {
    if n == 0 {
    } else {
      ZeroBits(n - 1);
      assert Zeros(n) == [false] + Zeros(n - 1);
    }
  }

  function Zeros(n: nat): (r: seq<bool>)
    ensures |r| == n
  {
    seq(n, _ => false)
  }

  /** Zeros up to the next byte boundary. */
  function Padding(n: nat): (r: seq<bool>)
    ensures |r| < 8 && (n + |r|) % 8 == 0
  {
    Zeros((8 - n % 8) % 8)
  }

  /** A small value in more bits is followed by zeros. */
  lemma PadBits(buf: nat, valid: nat, n: nat)
    requires buf < Pow2(valid) && valid <= n
    ensures ToBits(buf, n) == ToBits(buf, valid) + Zeros(n - valid)
  {
    hide Pow2, ToBits, Shr, Low;
    ToBitsAppend(buf, valid, n - valid);
    LowSmall(buf, valid);
    ShlZero(valid);
    SplitUnique(buf, valid, buf, 0);
    ZeroBits(n - valid);
  }

  /** The buffer, its fill and the bits that wait, at one moment. */
  datatype Snap = Snap(bytes: seq<Byte>, count: nat, valid: nat)

  /** Sending has only added to the buffer: what lies above is untouched, and since bits
      wait it is whole words that have been added. */
  ghost predicate Grew(a: Snap, b: Snap) {
    && |a.bytes| == |b.bytes| && a.count <= b.count <= |b.bytes| && (b.count - a.count) % 2 == 0
    && (b.count > a.count || a.valid > 0 ==> b.valid > 0)
    && forall q :: b.count <= q < |b.bytes| ==> b.bytes[q] == a.bytes[q]
  }

  lemma GrewNot(a: Snap)
    requires a.count <= |a.bytes|
    ensures Grew(a, a)
  {
  }

  lemma GrewOn(a: Snap, b: Snap, c: Snap)
    requires Grew(a, b) && Grew(b, c)
    ensures Grew(a, c)
  {
  }

  /** The bytes in the buffer once so many bits have been sent, when there were p bytes
      at some time before and bits have waited ever since. */
  function Held(p: nat, bits: nat): (r: nat)
    requires 8 * p <= bits
    ensures 8 * r <= bits
  {
    if bits == 8 * p then p else p + 2 * ((bits - 8 * p - 1) / 16)
  }

  lemma GrewHeld(a: Snap, b: Snap)
    requires Grew(a, b) && b.valid <= BUF_SIZE
    ensures a.count <= b.count && b.count == Held(a.count, 8 * b.count + b.valid)
  {
  }

  /** pending_buf with the bits that wait for it.  The bytes that are yet to be given out
      start at out, which is 0 unless some of them have been. */
  class Writer {
    const buf: array<Byte>
    var out: nat
    var count: nat
    var biBuf: nat
    var biValid: nat

    predicate Valid()
      reads this
    {
      biValid <= BUF_SIZE && biBuf < Pow2(biValid) && out + count <= buf.Length && (count == 0 ==> out == 0)
    }

    ghost function Pending(): (r: seq<Byte>)
      reads this, buf
      ensures out + count <= buf.Length ==> |r| == count
    {
      if out + count <= buf.Length then buf[out..out + count] else []
    }

    /** All bits sent and not yet given out. */
    ghost function Sent(): (r: seq<bool>)
      reads this, buf
      ensures Valid() ==> |r| == 8 * count + biValid
    {
      BytesToBits(Pending()) + ToBits(biBuf, biValid)
    }

    ghost function Now(): Snap
      reads this, buf
    {
      Snap(buf[..], count, biValid)
    }

    constructor (size: nat)
      ensures Valid() && Sent() == [] && biValid == 0 && count == 0 && buf.Length == size && fresh(buf)
    {
      buf := new Byte[size](_ => 0);
      out, count, biBuf, biValid := 0, 0, 0, 0;
    }

    method PutByte(x: Byte)
      requires Valid() && out == 0 && count < buf.Length
      modifies this`count, buf
      ensures Valid() && Pending() == old(Pending()) + [x] && count == old(count) + 1
      ensures BytesToBits(Pending()) == BytesToBits(old(Pending())) + ToBits(x, 8)
      ensures forall q :: count <= q < buf.Length ==> buf[q] == old(buf[q])
    {
      hide BytesToBits, ToBits, Pow2;
      OneByteBits(x);
      BytesToBitsAppend(Pending(), [x]);
      buf[count] := x;
      count := count + 1;
      assert buf[..count] == old(buf[..count]) + [x];
    }

    method PutShort(w: nat)
      requires Valid() && out == 0 && count + 2 <= buf.Length && w < 65536
      modifies this`count, buf
      ensures Valid() && BytesToBits(Pending()) == BytesToBits(old(Pending())) + ToBits(w, 16)
              && count == old(count) + 2
      ensures forall q :: count <= q < buf.Length ==> buf[q] == old(buf[q])
    {
      hide BytesToBits, ToBits, Pow2;
      WordBits(w);
      ghost var was := Pending();
      BytesToBitsAppend(was, [w % 256, w / 256]);
      PutByte(w % 256);
      PutByte(w / 256);
      assert Pending() == was + [w % 256, w / 256];
    }

    /** send_bits: the value's bits, low bit first. */
    method SendBits(value: nat, length: nat)
      requires Valid() && out == 0 && length <= 16 && value < Pow2(length) && |Sent()| + length <= 8 * buf.Length
      modifies this, buf
      ensures Valid() && out == 0 && Sent() == old(Sent()) + ToBits(value, length) && Grew(old(Now()), Now())
    {
      hide BytesToBits, ToBits, Pow2, Shl, Shr, Low;
      JoinBits(biBuf, biValid, value, length);
      var full := biBuf + Shl(value, biValid);
      if biValid > BUF_SIZE - length {
        WordThenRest(full, biValid, value, length);
        ghost var a, b := BytesToBits(Pending()), ToBits(Low(full, 16), 16);
        ghost var c := ToBits(Shr(value, 16 - biValid), biValid + length - 16);
        assert a + b + c == a + (b + c);
        PutShort(Low(full, 16));
        biBuf := Shr(value, BUF_SIZE - biValid);
        biValid := biValid + length - BUF_SIZE;
      } else {
        biBuf := full;
        biValid := biValid + length;
      }
    }

    /** bi_flush: keeps at most 7 bits back. */
    method Flush()
      requires Valid() && out == 0
      requires |Sent()| <= 8 * buf.Length
      modifies this, buf
      ensures Valid() && out == 0 && Sent() == old(Sent()) && biValid < 8
      ensures biValid == if old(biValid) == 16 then 0 else old(biValid) % 8
    {
      hide BytesToBits, ToBits, Pow2, Shr, Low;
      SplitByte(biBuf, biValid);
      if biValid == 16 {
        PutShort(biBuf);
        biBuf, biValid := 0, 0;
      } else if biValid >= 8 {
        PutByte(biBuf % 256);
        biBuf := Shr(biBuf, 8);
        biValid := biValid - 8;
      }
    }

    /** bi_windup: zeros up to the byte boundary. */
    method Windup()
      requires Valid() && out == 0
      requires |Sent()| + |Padding(|Sent()|)| <= 8 * buf.Length
      modifies this, buf
      ensures Valid() && out == 0 && biValid == 0 && Sent() == old(Sent()) + Padding(|old(Sent())|)
      ensures Sent() == BytesToBits(Pending())
    {
      hide BytesToBits, ToBits, Pow2;
      SplitByte(biBuf, biValid);
      PadFrom(Pending(), biBuf, biValid);
      if biValid > 8 {
        PutShort(biBuf);
      } else if biValid > 0 {
        PutByte(biBuf);
      }
      biBuf, biValid := 0, 0;
      SplitByte(0, 0);
    }

    /** flush_pending: the next n bytes are given out. */
    method Take(n: nat) returns (bytes: seq<Byte>)
      requires Valid() && n <= count
      modifies this`out, this`count
      ensures Valid() && old(Pending()) == bytes + Pending() && |bytes| == n
    {
      bytes := buf[out..out + n];
      assert buf[out..out + count] == buf[out..out + n] + buf[out + n..out + count];
      out, count := out + n, count - n;
      if count == 0 {
        out := 0;
      }
    }
  }

  /** What waits and what the next value adds, as a word and the rest. */
  lemma WordThenRest(full: nat, valid: nat, value: nat, length: nat)
    requires valid <= 16 && length <= 16 <= valid + length && value < Pow2(length)
    requires full < Pow2(valid + length) && Shr(full, valid) == value
    ensures ToBits(full, valid + length)
              == ToBits(Low(full, 16), 16) + ToBits(Shr(value, 16 - valid), valid + length - 16)
    ensures Low(full, 16) < 65536 && Shr(value, 16 - valid) < Pow2(valid + length - 16)
  {
    hide ToBits, Pow2, Shr, Low;
    ToBitsAppend(full, 16, valid + length - 16);
    ToBitsLow(full, 16, 16);
    ShrShr(full, valid, 16 - valid);
    SplitAt(full, 16);
    Pow2Values();
    ShrBound(value, length, 16 - valid);
  }

  lemma SplitByte(buf: nat, valid: nat)
    requires valid <= 16 && buf < Pow2(valid)
    ensures ToBits(buf, 0) == [] && Pow2(0) == 1 && buf < 65536
    ensures valid <= 8 ==> buf < 256
    ensures valid >= 8 ==> ToBits(buf, valid) == ToBits(buf % 256, 8) + ToBits(Shr(buf, 8), valid - 8)
    ensures valid >= 8 ==> Shr(buf, 8) < Pow2(valid - 8)
  {
    hide ToBits, Shr, Low;
    Pow2Values();
    Pow2Mono(valid, 16);
    assert ToBits(buf, 0) == [] by { NoneBits(buf); }
    if valid >= 8 {
      ToBitsAppend(buf, 8, valid - 8);
      ToBitsLow(buf, 8, 8);
      LowIsMod(buf, 8);
      ShrBound(buf, valid, 8);
    }
    if valid <= 8 {
      Pow2Mono(valid, 8);
    }
  }

  lemma NoneBits(v: nat)
    ensures ToBits(v, 0) == []
  {
  }

  lemma PadLength(bytes: nat, valid: nat)
    requires valid <= 16
    ensures var pad := |Padding(8 * bytes + valid)|;
            pad == if valid > 8 then 16 - valid else if valid > 0 then 8 - valid else 0
  {
    assert (8 * bytes + valid) % 8 == valid % 8;
  }

  lemma PadFrom(pending: seq<Byte>, buf: nat, valid: nat)
    requires valid <= 16 && buf < Pow2(valid)
    ensures |BytesToBits(pending)| == 8 * |pending|
    ensures var pad := Padding(|BytesToBits(pending) + ToBits(buf, valid)|);
            && (valid > 8 ==> ToBits(buf, 16) == ToBits(buf, valid) + pad)
            && (0 < valid <= 8 ==> ToBits(buf, 8) == ToBits(buf, valid) + pad)
            && (valid == 0 ==> ToBits(buf, valid) + pad == [])
  {
    hide ToBits, Pow2, BytesToBits;
    PadLength(|pending|, valid);
    if valid > 8 {
      PadBits(buf, valid, 16);
    } else if valid > 0 {
      PadBits(buf, valid, 8);
    } else {
      NoneBits(buf);
    }
  }
}
