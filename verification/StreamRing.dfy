/** One stream or message buffer as a byte ring in the shared byte arena (stream.rs): the cursor
    arithmetic, the two-part copies, and the length prefix in front of each message. */
module StreamRings {
  import opened Basics
  import opened Extents

  type Byte = x: nat | x < 256

  datatype Ring = Ring(base: nat, length: nat, head: nat, tail: nat, isMessage: bool)

  predicate RingOk(b: Ring) {
    b.head < b.length && b.tail < b.length
  }

  function ExtentOf(b: Ring): Extent { Extent(b.base, b.length) }

  predicate Stored(b: Ring, bytes: nat) {
    RingOk(b) && b.base + b.length <= bytes
  }

  /** `bytes_in_buffer`. */
  function BytesInBuffer(b: Ring): nat
    requires RingOk(b)
  {
    var count := b.length + b.head - b.tail;
    if count >= b.length then count - b.length else count
  }

  /** `spaces_available`. */
  function SpacesAvailable(b: Ring): nat
    requires RingOk(b)
  {
    var space := b.length + b.tail - b.head - 1;
    if space >= b.length then space - b.length else space
  }

  /** One byte of the ring is always spare, which is what tells full from empty. */
  lemma SpareByte(b: Ring)
    requires RingOk(b)
    ensures BytesInBuffer(b) + SpacesAvailable(b) == b.length - 1
    ensures BytesInBuffer(b) == 0 <==> b.head == b.tail
  {
  }

  function Wrap(index: nat, length: nat): nat {
    if index >= length then index - length else index
  }

  // ------------------------------------------------------------- copying --

  /** How far round the ring cell `at` lies from `from`. */
  function Ahead(from: nat, at: nat, length: nat): nat
    requires from < length && at < length
  {
    if at >= from then at - from else at + length - from
  }

  /** The arena after `data` is laid into a ring from `head` on. */
  function Poke(bytes: seq<Byte>, base: nat, length: nat, data: seq<Byte>, head: nat): (after: seq<Byte>)
    requires base + length <= |bytes| && head < length && |data| <= length
    ensures |after| == |bytes|
  {
    seq(|bytes|, i requires 0 <= i < |bytes| =>
      if base <= i < base + length && Ahead(head, i - base, length) < |data|
      then data[Ahead(head, i - base, length)] else bytes[i])
  }

  /** `count` bytes of a ring from `tail` on. */
  function Peek(bytes: seq<Byte>, base: nat, length: nat, tail: nat, count: nat): (data: seq<Byte>)
    requires base + length <= |bytes| && tail < length && count <= length
    ensures |data| == count
  {
    seq(count, k requires 0 <= k < count => bytes[base + Wrap(tail + k, length)])
  }

  /** What a ring holds, oldest byte first. */
  function Contents(bytes: seq<Byte>, b: Ring): (data: seq<Byte>)
    requires Stored(b, |bytes|)
    ensures |data| == BytesInBuffer(b)
  {
    Peek(bytes, b.base, b.length, b.tail, BytesInBuffer(b))
  }

  /** Bytes laid into the free part of a ring are invisible until the head moves over them, and then
      they are the newest of its contents. */
  lemma PokeAppends(bytes: seq<Byte>, b: Ring, data: seq<Byte>)
    requires Stored(b, |bytes|) && |data| <= SpacesAvailable(b)
    ensures var after := Poke(bytes, b.base, b.length, data, b.head);
      && Contents(after, b) == Contents(bytes, b)
      && Contents(after, b.(head := Wrap(b.head + |data|, b.length))) == Contents(bytes, b) + data
  {
    var after := Poke(bytes, b.base, b.length, data, b.head);
    var r := b.(head := Wrap(b.head + |data|, b.length));
    forall k: nat | k < BytesInBuffer(b) ensures Contents(after, b)[k] == Contents(bytes, b)[k] {
      var at := Wrap(b.tail + k, b.length);
      assert Ahead(b.head, at, b.length) == SpacesAvailable(b) + 1 + k;
      assert after[b.base + at] == bytes[b.base + at];
    }
    assert BytesInBuffer(r) == BytesInBuffer(b) + |data|;
    forall k: nat | k < |data|
      ensures Contents(after, r)[BytesInBuffer(b) + k] == data[k]
    {
      var at := Wrap(b.tail + BytesInBuffer(b) + k, b.length);
      assert Ahead(b.head, at, b.length) == k;
    }
    assert Contents(after, r) == Contents(bytes, b) + data;
  }

  lemma PokeAt(bytes: seq<Byte>, base: nat, length: nat, data: seq<Byte>, head: nat, i: nat)
    requires base + length <= |bytes| && head < length && |data| <= length && i < |bytes|
    ensures Poke(bytes, base, length, data, head)[i] ==
      if base <= i < base + length && Ahead(head, i - base, length) < |data|
      then data[Ahead(head, i - base, length)] else bytes[i]
  {
  }

  lemma PokeNothing(bytes: seq<Byte>, base: nat, length: nat, head: nat)
    requires base + length <= |bytes| && head < length
    ensures Poke(bytes, base, length, [], head) == bytes
  {
    forall i: nat | i < |bytes| ensures Poke(bytes, base, length, [], head)[i] == bytes[i] {
      PokeAt(bytes, base, length, [], head, i);
    }
  }

  /** An arena that agrees with a poke cell by cell is that poke. */
  lemma LaidOut(bytes: seq<Byte>, after: seq<Byte>, base: nat, length: nat, data: seq<Byte>, head: nat)
    requires base + length <= |bytes| == |after| && head < length && |data| <= length
    requires forall i :: 0 <= i < |bytes| && !(base <= i < base + length) ==> after[i] == bytes[i]
    requires forall j :: 0 <= j < length && |data| <= Ahead(head, j, length) ==> after[base + j] == bytes[base + j]
    requires forall k :: 0 <= k < |data| ==> after[base + Wrap(head + k, length)] == data[k]
    ensures after == Poke(bytes, base, length, data, head)
  {
    forall i: nat | i < |bytes| ensures Poke(bytes, base, length, data, head)[i] == after[i] {
      PokeAt(bytes, base, length, data, head, i);
      if base <= i < base + length {
        var j := i - base;
        assert after[i] == after[base + j];
        assert Wrap(head + Ahead(head, j, length), length) == j;
      }
    }
  }

  lemma ReadOut(bytes: seq<Byte>, out: seq<Byte>, base: nat, length: nat, tail: nat, count: nat)
    requires base + length <= |bytes| && tail < length && count <= length && |out| == count
    requires forall k :: 0 <= k < count ==> out[k] == bytes[base + Wrap(tail + k, length)]
    ensures out == Peek(bytes, base, length, tail, count)
  {
  }

  /** Two pokes in a row are one. */
  lemma PokeTwice(bytes: seq<Byte>, base: nat, length: nat, first: seq<Byte>, second: seq<Byte>, head: nat)
    requires base + length <= |bytes| && head < length && |first| + |second| < length
    ensures Poke(Poke(bytes, base, length, first, head), base, length, second, Wrap(head + |first|, length))
         == Poke(bytes, base, length, first + second, head)
  {
    var once := Poke(bytes, base, length, first, head);
    var twice := Poke(once, base, length, second, Wrap(head + |first|, length));
    var whole := Poke(bytes, base, length, first + second, head);
    forall i | 0 <= i < |bytes| ensures twice[i] == whole[i] {
      if base <= i < base + length {
        var a, c := Ahead(head, i - base, length), Ahead(Wrap(head + |first|, length), i - base, length);
        assert c == if a >= |first| then a - |first| else a - |first| + length;
      }
    }
    assert twice == whole;
  }

  /** Reading takes the oldest bytes and leaves the rest. */
  lemma PeekTakes(bytes: seq<Byte>, b: Ring, count: nat)
    requires Stored(b, |bytes|) && count <= BytesInBuffer(b)
    ensures Peek(bytes, b.base, b.length, b.tail, count) == Contents(bytes, b)[..count]
    ensures Contents(bytes, b.(tail := Wrap(b.tail + count, b.length))) == Contents(bytes, b)[count..]
  {
    var r := b.(tail := Wrap(b.tail + count, b.length));
    assert BytesInBuffer(r) == BytesInBuffer(b) - count;
    forall k: nat | k < BytesInBuffer(r) ensures Contents(bytes, r)[k] == Contents(bytes, b)[count + k] {
      assert Wrap(r.tail + k, b.length) == Wrap(b.tail + (count + k), b.length);
    }
  }

  /** Reading twice takes the oldest bytes and then the next oldest. */
  lemma PeekTwice(bytes: seq<Byte>, b: Ring, first: nat, second: nat)
    requires Stored(b, |bytes|) && first + second <= BytesInBuffer(b)
    ensures Peek(bytes, b.base, b.length, b.tail, first) == Contents(bytes, b)[..first]
    ensures Peek(bytes, b.base, b.length, Wrap(b.tail + first, b.length), second)
         == Contents(bytes, b)[first..first + second]
    ensures RingOk(b.(tail := Wrap(Wrap(b.tail + first, b.length) + second, b.length)))
    ensures Contents(bytes, b.(tail := Wrap(Wrap(b.tail + first, b.length) + second, b.length)))
         == Contents(bytes, b)[first + second..]
  {
    var past, all := b.(tail := Wrap(b.tail + first, b.length)), Contents(bytes, b);
    PeekTakes(bytes, b, first);
    PeekTakes(bytes, past, second);
    assert all[first..][..second] == all[first..first + second];
    assert all[first..][second..] == all[first + second..];
  }

  /** A poke in one buffer's extent is invisible to a buffer whose extent is apart from it. */
  lemma PokeElsewhere(bytes: seq<Byte>, b: Ring, data: seq<Byte>, head: nat, g: Ring)
    requires Stored(b, |bytes|) && Stored(g, |bytes|) && Apart(ExtentOf(g), ExtentOf(b))
    requires head < b.length && |data| <= b.length
    ensures Contents(Poke(bytes, b.base, b.length, data, head), g) == Contents(bytes, g)
  {
    var after := Poke(bytes, b.base, b.length, data, head);
    forall k: nat | k < BytesInBuffer(g) ensures Contents(after, g)[k] == Contents(bytes, g)[k] {
      var i := g.base + Wrap(g.tail + k, g.length);
      assert after[i] == bytes[i];
    }
  }

  // ------------------------------------------------------------- framing --

  function Pow256(w: nat): (p: nat)
    ensures p > 0
  {
    if w == 0 then 1 else 256 * Pow256(w - 1)
  }

  /** `length.to_le_bytes()`, the first w of them. */
  function EncodeLength(n: nat, w: nat): (s: seq<Byte>)
    ensures |s| == w
  {
    if w == 0 then [] else [n % 256] + EncodeLength(n / 256, w - 1)
  }

  /** `from_le_bytes`. */
  function DecodeLength(s: seq<Byte>): nat {
    if s == [] then 0 else s[0] + 256 * DecodeLength(s[1..])
  }

  lemma {:induction false} DecodeBound(s: seq<Byte>)
    ensures DecodeLength(s) < Pow256(|s|)
  {
    if s != [] { DecodeBound(s[1..]); }
  }

  lemma {:induction false} DecodeEncode(n: nat, w: nat)
    requires n < Pow256(w)
    ensures DecodeLength(EncodeLength(n, w)) == n
  {
    if w > 0 {
      assert EncodeLength(n, w)[1..] == EncodeLength(n / 256, w - 1);
      DecodeEncode(n / 256, w - 1);
    }
  }

  /** A length through its prefix and back is cut to the prefix's width. */
  lemma {:induction false} DecodeIsCut(n: nat, w: nat)
    ensures DecodeLength(EncodeLength(n, w)) == n % Pow256(w)
  {
    if w > 0 {
      assert EncodeLength(n, w)[1..] == EncodeLength(n / 256, w - 1);
      DecodeIsCut(n / 256, w - 1);
      CutByBytes(n, Pow256(w - 1));
    }
  }

  /** Byte k of the prefix is the k-th byte of the length, counted from the low end. */
  lemma {:induction false} PrefixIsLittleEndian(n: nat, w: nat, k: nat)
    requires k < w
    ensures EncodeLength(n, w)[k] == n / Pow256(k) % 256
  {
    if k > 0 {
      PrefixIsLittleEndian(n / 256, w - 1, k - 1);
      DivideTwice(n, Pow256(k - 1));
    }
  }

  lemma DivideTwice(n: nat, p: nat)
    requires p > 0
    ensures n / 256 / p == n / (256 * p)
  {
    var a, b := n / 256 / p, n / 256 % p;
    assert n == 256 * (a * p + b) + n % 256;
    assert 256 * (a * p + b) == a * (256 * p) + 256 * b;
    Quotient(a, 256 * b + n % 256, 256 * p);
  }

  /** The low byte and the rest cut to p are the whole cut to 256 p. */
  lemma CutByBytes(n: nat, p: nat)
    requires p > 0
    ensures n % 256 + 256 * (n / 256 % p) == n % (256 * p)
  {
    var low, high := n % 256, n / 256;
    var q, r := high / p, high % p;
    var m := 256 * p;
    assert high == q * p + r;
    assert n == q * m + (low + 256 * r);
    Remainder(q, low + 256 * r, m);
  }

  /** A length survives its prefix exactly when it fits the prefix's width: a wider one is cut. */
  lemma PrefixRoundTrips(n: nat, w: nat)
    ensures DecodeLength(EncodeLength(n, w)) == n <==> n < Pow256(w)
  {
    if n < Pow256(w) {
      DecodeEncode(n, w);
    } else {
      DecodeBound(EncodeLength(n, w));
    }
  }

  type Message = seq<Byte>

  /** A message as it stands in the ring. */
  function Frame(m: Message, w: nat): seq<Byte> {
    EncodeLength(|m|, w) + m
  }

  function Frames(msgs: seq<Message>, w: nat): seq<Byte> {
    if msgs == [] then [] else Frame(msgs[0], w) + Frames(msgs[1..], w)
  }

  predicate Sendable(m: Message, w: nat) {
    0 < |m| < Pow256(w)
  }

  predicate AllSendable(msgs: seq<Message>, w: nat) {
    forall i :: 0 <= i < |msgs| ==> Sendable(msgs[i], w)
  }

  lemma {:induction false} FramesAppend(msgs: seq<Message>, more: seq<Message>, w: nat)
    ensures Frames(msgs + more, w) == Frames(msgs, w) + Frames(more, w)
  {
    if msgs == [] {
      assert msgs + more == more;
    } else {
      assert (msgs + more)[1..] == msgs[1..] + more;
      FramesAppend(msgs[1..], more, w);
    }
  }

  lemma FramesOfOne(m: Message, w: nat)
    ensures Frames([m], w) == Frame(m, w)
  {
    assert Frames([m], w) == Frame(m, w) + Frames([], w);
  }

  /** Any cut of the stream of frames at a message boundary past the first holds the first whole. */
  lemma FirstFrame(msgs: seq<Message>, k: nat, w: nat)
    requires 0 < k <= |msgs| && AllSendable(msgs, w)
    ensures w + |msgs[0]| <= |Frames(msgs[..k], w)| <= |Frames(msgs, w)|
    ensures Frames(msgs, w)[..w] == EncodeLength(|msgs[0]|, w)
    ensures Frames(msgs, w)[w..w + |msgs[0]|] == msgs[0]
    ensures Frames(msgs, w)[w + |msgs[0]|..] == Frames(msgs[1..], w)
  {
    assert msgs[..k][0] == msgs[0];
    assert msgs == msgs[..k] + msgs[k..];
    FramesAppend(msgs[..k], msgs[k..], w);
  }

  /** The framing loses nothing: the bytes in the ring determine the messages in it. */
  lemma {:induction false} FramesInjective(a: seq<Message>, b: seq<Message>, w: nat)
    requires AllSendable(a, w) && AllSendable(b, w) && Frames(a, w) == Frames(b, w)
    ensures a == b
  {
    if a != [] && b != [] {
      FirstFrame(a, |a|, w);
      FirstFrame(b, |b|, w);
      DecodeEncode(|a[0]|, w);
      DecodeEncode(|b[0]|, w);
      FramesInjective(a[1..], b[1..], w);
    } else if a != [] {
      FirstFrame(a, |a|, w);
    } else if b != [] {
      FirstFrame(b, |b|, w);
    }
  }
}
