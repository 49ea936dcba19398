/** The log capture of internal/app/inference.go: a ring over the last bytes of a stream, and its first bytes. */
module RollingCapture {
  import opened Int64

  type Byte = bv8

  const DETAIL_LIMIT: nat := 0x8000

  /** The last n bytes, or all of them. */
  function Last(s: seq<Byte>, n: nat): seq<Byte> {
    if |s| <= n then s else s[|s| - n..]
  }

  function First(s: seq<Byte>, n: nat): seq<Byte> {
    if |s| <= n then s else s[..n]
  }

  /** Reading the ring from its start. */
  function Unrolled(buf: seq<Byte>, start: nat): (r: seq<Byte>)
    requires start <= |buf|
    ensures |r| == |buf|
  {
    buf[start..] + buf[..start]
  }

  /** The two copies of a write that wraps: up to the end of the ring, then from its beginning. */
  function Overwritten(buf: seq<Byte>, start: nat, p: seq<Byte>): seq<Byte>
    requires start < |buf| && |p| < |buf|
  {
    var first := Min(|p|, |buf| - start);
    var tail := buf[..start] + p[..first] + buf[start + first..];
    p[first..] + tail[|p| - first..]
  }

  /** An index that may have run past the end once. */
  function Wrapped(i: nat, n: nat): nat {
    if i < n then i else i - n
  }

  lemma RemainderWraps(i: nat, n: nat)
    requires i < 2 * n
    ensures i % n == Wrapped(i, n)
  {
    if i >= n {
      assert i % n == (i - n) % n;
    }
  }

  lemma OverwrittenInPlace(buf: seq<Byte>, start: nat, p: seq<Byte>)
    requires start + |p| < |buf|
    ensures Overwritten(buf, start, p) == buf[..start] + p + buf[start + |p|..]
  {
    assert p[..|p|] == p && p[|p|..] == [];
    var tail := buf[..start] + p + buf[start + |p|..];
    assert [] + tail[0..] == tail;
  }

  lemma SlideInPlace(buf: seq<Byte>, start: nat, p: seq<Byte>)
    requires start + |p| < |buf|
    ensures |Overwritten(buf, start, p)| == |buf|
    ensures Unrolled(Overwritten(buf, start, p), start + |p|) == Unrolled(buf, start)[|p|..] + p
  {
    OverwrittenInPlace(buf, start, p);
    hide Overwritten;
    var head, rest := buf[..start], buf[start + |p|..];
    var over := head + p + rest;
    assert over[start + |p|..] == rest && over[..start + |p|] == head + p;
    assert (buf[start..] + head)[|p|..] == rest + head;
    assert rest + (head + p) == rest + head + p;
  }

  lemma SlideAround(buf: seq<Byte>, start: nat, p: seq<Byte>)
    requires start < |buf| <= start + |p| && |p| < |buf|
    ensures |Overwritten(buf, start, p)| == |buf|
    ensures Unrolled(Overwritten(buf, start, p), start + |p| - |buf|) == Unrolled(buf, start)[|p|..] + p
  {
    var over := Overwritten(buf, start, p);
    var first := |buf| - start;
    var wrapped := |p| - first;
    var tail := buf[..start] + p[..first];
    assert buf[start + first..] == [] && over == p[first..] + (tail + [])[wrapped..];
    assert tail + [] == tail;
    assert over[..wrapped] == p[first..];
    assert over[wrapped..] == tail[wrapped..] == buf[wrapped..start] + p[..first];
    assert (buf[start..] + buf[..start])[|p|..] == buf[wrapped..start];
    assert p[..first] + p[first..] == p;
  }

  /** Overwriting drops the oldest bytes and appends the new ones. */
  lemma OverwriteSlides(buf: seq<Byte>, start: nat, p: seq<Byte>)
    requires start < |buf| && |p| < |buf|
    ensures |Overwritten(buf, start, p)| == |buf|
    ensures Unrolled(Overwritten(buf, start, p), Wrapped(start + |p|, |buf|)) == Unrolled(buf, start)[|p|..] + p
  {
    hide Overwritten;
    hide Unrolled;
    if start + |p| < |buf| {
      SlideInPlace(buf, start, p);
    } else {
      SlideAround(buf, start, p);
    }
  }

  lemma LastOfConcat(s: seq<Byte>, p: seq<Byte>, n: nat)
    ensures Last(s + p, n) == Last(Last(s, n) + p, n)
    ensures |p| >= n ==> Last(s + p, n) == p[|p| - n..]
  {
  }

  lemma SlideIsLast(full: seq<Byte>, rest: seq<Byte>, all: seq<Byte>, n: nat)
    requires |full| == n && full + rest == all
    ensures (full + rest)[|rest|..] == Last(all, n)
  {
  }

  lemma UnrolledFromZero(buf: seq<Byte>)
    ensures Unrolled(buf, 0) == buf
  {
  }

  lemma ShortLast(s: seq<Byte>, n: nat)
    requires |s| <= n
    ensures Last(s, n) == s
  {
  }

  class Capture {
    const max: int
    var buf: seq<Byte>
    var detail: seq<Byte>
    var total: nat
    var bufStart: nat
    var bufFull: bool
    ghost var stream: seq<Byte>

    ghost predicate Valid()
      reads this
    {
      && total == |stream|
      && detail == First(stream, DETAIL_LIMIT)
      && (max <= 0 ==> buf == [] && !bufFull)
      && (max > 0 ==> RingHolds(stream))
    }

    /** Read from its start, the ring is the last max bytes of s. */
    ghost predicate RingHolds(s: seq<Byte>)
      requires max > 0
      reads this
    {
      && |buf| <= max && (bufFull <==> |buf| == max)
      && bufStart < max && (!bufFull ==> bufStart == 0) && bufStart <= |buf|
      && Unrolled(buf, bufStart) == Last(s, max)
    }

    constructor (max: int)
      ensures Valid() && stream == [] && this.max == max
    {
      this.max := max;
      buf, detail, total, bufStart, bufFull, stream := [], [], 0, 0, false, [];
    }

    /** Whatever the sizes of the writes, the stream grows by p and the invariant holds again. */
    method Write(p: seq<Byte>) returns (size: nat)
      requires Valid()
      modifies this
      ensures Valid() && stream == old(stream) + p && size == |p|
    {
      size := |p|;
      total := total + size;
      if |detail| < DETAIL_LIMIT {
        var remaining := Min(DETAIL_LIMIT - |detail|, |p|);
        detail := detail + p[..remaining];
      }
      assert detail == First(stream + p, DETAIL_LIMIT);
      if max > 0 && |p| > 0 {
        WriteRing(p);
      } else {
        assert |p| == 0 ==> stream + p == stream;
      }
      stream := stream + p;
    }

    method WriteRing(p: seq<Byte>)
      requires max > 0 && |p| > 0 && RingHolds(stream)
      modifies this`buf, this`bufStart, this`bufFull
      ensures RingHolds(stream + p)
    {
      hide Last;
      hide Unrolled;
      LastOfConcat(stream, p, max);
      if |p| >= max {
        UnrolledFromZero(p[|p| - max..]);
        buf := p[|p| - max..];
        bufStart := 0;
        bufFull := true;
        return;
      }
      var rest := p;
      if !bufFull {
        var remaining := max - |buf|;
        UnrolledFromZero(buf);
        UnrolledFromZero(buf + p);
        UnrolledFromZero(buf + p[..Min(remaining, |p|)]);
        if |p| <= remaining {
          ShortLast(buf + p, max);
          buf := buf + p;
          bufFull := |buf| == max;
          return;
        }
        assert buf + p == buf + p[..remaining] + p[remaining..];
        buf := buf + p[..remaining];
        rest := p[remaining..];
        bufFull := true;
        bufStart := 0;
      }
      assert Unrolled(buf, bufStart) + rest == Last(stream, max) + p;
      SlideIsLast(Unrolled(buf, bufStart), rest, Last(stream, max) + p, max);
      SlideRing(rest);
    }

    /** The two copies into a full ring. */
    method SlideRing(rest: seq<Byte>)
      requires max > 0 && |buf| == max && bufStart < max && |rest| < max
      modifies this`buf, this`bufStart
      ensures |buf| == max && bufStart < max
      ensures Unrolled(buf, bufStart) == (Unrolled(old(buf), old(bufStart)) + rest)[|rest|..]
    {
      hide Unrolled;
      OverwriteSlides(buf, bufStart, rest);
      RemainderWraps(bufStart + |rest|, max);
      var first := Min(|rest|, max - bufStart);
      var tail := buf[..bufStart] + rest[..first] + buf[bufStart + first..];
      buf := rest[first..] + tail[|rest| - first..];
      bufStart := (bufStart + |rest|) % max;
    }

    /** Exactly the last min(total, max) bytes written. */
    method Bytes() returns (bytes: seq<Byte>)
      requires Valid()
      ensures bytes == if max <= 0 then [] else Last(stream, max)
      ensures |bytes| == if max <= 0 then 0 else if |stream| <= max then |stream| else max
      ensures bytes == stream[|stream| - |bytes|..]
    {
      if !bufFull || bufStart == 0 {
        return buf;
      }
      return buf[bufStart..] + buf[..bufStart];
    }

    /** The first bytes, whether any were cut off, and how many there were. */
    method Info() returns (head: seq<Byte>, truncated: bool, size: nat)
      requires Valid()
      ensures head == First(stream, DETAIL_LIMIT)
      ensures |head| == (if |stream| <= 32_768 then |stream| else 32_768) && head == stream[..|head|]
      ensures truncated <==> |stream| > 32_768
      ensures size == |stream|
    {
      return detail, total > |detail|, total;
    }
  }
}
