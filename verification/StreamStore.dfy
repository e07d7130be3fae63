/** All the kernel's stream and message buffers over their shared byte arena (stream.rs): create,
    delete, send, receive and reset, as the interrupt calls make them and as the task calls do below
    their waits. */
module StreamStores {
  import opened Basics
  import opened Extents
  import opened ExtentPools
  import opened StreamRings

  /** What a buffer is to its writer and its reader. */
  datatype Channel = Stream(size: nat, data: seq<Byte>) | Messages(size: nat, msgs: seq<Message>)

  function BytesOf(c: Channel, w: nat): seq<Byte> {
    match c
    case Stream(_, data) => data
    case Messages(_, msgs) => Frames(msgs, w)
  }

  function NewChannel(size: nat, isMessage: bool): Channel {
    if isMessage then Messages(size, []) else Stream(size, [])
  }

  function Emptied(c: Channel): Channel {
    match c
    case Stream(_, _) => c.(data := [])
    case Messages(_, _) => c.(msgs := [])
  }

  /** How much a send hands over when it finds `space` free bytes: as many bytes as fit, or a whole
      message or nothing. */
  function Accepted(c: Channel, data: seq<Byte>, space: nat, w: nat): nat {
    if c.Stream? then (if |data| <= space then |data| else space)
    else if |data| + w <= space then |data| else 0
  }

  function Sent(c: Channel, data: seq<Byte>, space: nat, w: nat): Channel {
    match c
    case Stream(_, was) => c.(data := was + data[..Accepted(c, data, space, w)])
    case Messages(_, was) => if Accepted(c, data, space, w) == 0 then c else c.(msgs := was + [data])
  }

  /** How much a receive with room for `limit` bytes hands back when it may look at `available` bytes
      of the buffer: of messages the first one whole, or nothing if it is longer than the room. */
  function Handed(c: Channel, limit: nat, available: nat): seq<Byte>
    requires c.Stream? ==> available <= |c.data|
  {
    match c
    case Stream(_, data) => data[..if limit <= available then limit else available]
    case Messages(_, msgs) =>
      if available == 0 || msgs == [] || |msgs[0]| > limit then [] else msgs[0]
  }

  function Received(c: Channel, limit: nat, available: nat): Channel
    requires c.Stream? ==> available <= |c.data|
  {
    match c
    case Stream(_, data) => c.(data := data[|Handed(c, limit, available)|..])
    case Messages(_, msgs) => if Handed(c, limit, available) == [] then c else c.(msgs := msgs[1..])
  }

  ghost predicate Holds(bytes: seq<Byte>, b: Ring, c: Channel, w: nat) {
    && Stored(b, |bytes|)
    && c.size == b.length - 1
    && c.Messages? == b.isMessage
    && Contents(bytes, b) == BytesOf(c, w)
    && (c.Messages? ==> AllSendable(c.msgs, w))
  }

  ghost predicate AllHold(bytes: seq<Byte>, buffers: map<Handle, Ring>, model: map<Handle, Channel>, w: nat) {
    && model.Keys == buffers.Keys
    && forall h :: h in buffers ==> Holds(bytes, buffers[h], model[h], w)
  }

  ghost predicate Separate(buffers: map<Handle, Ring>) {
    forall g, h :: g in buffers && h in buffers && g != h ==> Apart(ExtentOf(buffers[g]), ExtentOf(buffers[h]))
  }

  ghost function LiveExtents(buffers: map<Handle, Ring>): set<Extent> {
    set h | h in buffers :: ExtentOf(buffers[h])
  }

  // --------------------------------------------- one send, one receive --

  /** What `write_message` lays into the ring: nothing else of it changes. */
  function Laid(c: Channel, data: seq<Byte>, space: nat, w: nat): seq<Byte> {
    if c.Stream? then data[..Accepted(c, data, space, w)]
    else if |data| + w <= space then EncodeLength(|data|, w) + data else []
  }

  /** Laying those bytes, and moving the head over them unless nothing was accepted, is one send.  A
      message of no bytes leaves its prefix behind in the free part, where nobody sees it. */
  lemma LaidIsSent(bytes: seq<Byte>, b: Ring, c: Channel, data: seq<Byte>, space: nat, w: nat)
    requires Holds(bytes, b, c, w) && space <= SpacesAvailable(b)
    requires c.Messages? ==> |data| < Pow256(w)
    ensures |Laid(c, data, space, w)| <= space
    ensures var laid := Laid(c, data, space, w);
      var after := Poke(bytes, b.base, b.length, laid, b.head);
      var r := if Accepted(c, data, space, w) == 0 then b else b.(head := Wrap(b.head + |laid|, b.length));
      Holds(after, r, Sent(c, data, space, w), w)
  {
    var laid := Laid(c, data, space, w);
    PokeAppends(bytes, b, laid);
    if c.Messages? {
      FramesAppend(c.msgs, [data], w);
      FramesOfOne(data, w);
    }
  }

  /** What a send of `data` that finds `free` bytes free answers and leaves, in sizes: of a stream as many first
      bytes as there is room for; of a message, which needs its prefix as well, all of it or none. */
  predicate SendOutcome(c: Channel, data: seq<Byte>, free: nat, w: nat, answer: nat, after: Channel) {
    match c
    case Stream(size, was) =>
      && answer == (if |data| < free then |data| else free)
      && after == Stream(size, was + data[..answer])
    case Messages(size, was) =>
      if data != [] && |data| + w <= free then answer == |data| && after == Messages(size, was + [data])
      else answer == 0 && after == c
  }

  lemma SendExactly(c: Channel, data: seq<Byte>, free: nat, w: nat)
    ensures SendOutcome(c, data, free, w, Accepted(c, data, free, w), Sent(c, data, free, w))
  {
  }

  /** And what a receive into `limit` bytes hands over and leaves that sees the first `available` bytes: of a
      stream as many as both allow, of messages the first if it is no longer than the room. */
  predicate ReceiveOutcome(c: Channel, limit: nat, available: nat, handed: seq<Byte>, after: Channel) {
    match c
    case Stream(size, was) =>
      var n := if limit < available then limit else available;
      n <= |was| && handed == was[..n] && after == Stream(size, was[n..])
    case Messages(size, was) =>
      if available > 0 && was != [] && |was[0]| <= limit then handed == was[0] && after == Messages(size, was[1..])
      else handed == [] && after == c
  }

  lemma ReceiveExactly(c: Channel, limit: nat, available: nat, w: nat)
    requires c.Stream? ==> available <= |c.data|
    requires c.Messages? ==> AllSendable(c.msgs, w)
    ensures ReceiveOutcome(c, limit, available, Handed(c, limit, available), Received(c, limit, available))
  {
  }

  /** A view of the buffer the reader may act on: everything there is now, or what was there when it
      looked, since when only whole sends can have been added. */
  ghost predicate Sampled(c: Channel, available: nat, w: nat) {
    match c
    case Stream(_, data) => available <= |data|
    case Messages(_, msgs) => exists k :: 0 <= k <= |msgs| && available == |Frames(msgs[..k], w)|
  }

  lemma EverythingIsSampled(c: Channel, w: nat)
    ensures Sampled(c, |BytesOf(c, w)|, w)
  {
    if c.Messages? { assert c.msgs[..|c.msgs|] == c.msgs; }
  }

  /** A sample stays good while the writer goes on sending. */
  lemma SendKeepsSample(c: Channel, available: nat, data: seq<Byte>, space: nat, w: nat)
    requires Sampled(c, available, w)
    ensures Sampled(Sent(c, data, space, w), available, w)
  {
    if c.Messages? && Accepted(c, data, space, w) != 0 {
      var k :| 0 <= k <= |c.msgs| && available == |Frames(c.msgs[..k], w)|;
      assert (c.msgs + [data])[..k] == c.msgs[..k];
    }
  }

  /** And the free space the writer sampled stays there while the reader goes on receiving: what a receive
      takes out is added to it. */
  lemma ReceiveKeepsSpace(before: seq<Byte>, b: Ring, c: Channel, after: seq<Byte>, r: Ring, limit: nat, available: nat, w: nat)
    requires Holds(before, b, c, w) && (c.Stream? ==> available <= |c.data|)
    requires Holds(after, r, Received(c, limit, available), w)
    ensures var gone := |BytesOf(c, w)| - |BytesOf(Received(c, limit, available), w)|;
      gone >= 0 && SpacesAvailable(r) == SpacesAvailable(b) + gone
  {
    SpareByte(b);
    SpareByte(r);
  }

  /** A sample past the prefix sees the whole of the first message. */
  lemma SampleHoldsFirst(c: Channel, available: nat, w: nat)
    requires c.Messages? && AllSendable(c.msgs, w) && Sampled(c, available, w) && available > w
    ensures c.msgs != []
    ensures w + |c.msgs[0]| <= available <= |Frames(c.msgs, w)|
    ensures Frames(c.msgs, w)[..w] == EncodeLength(|c.msgs[0]|, w)
    ensures Frames(c.msgs, w)[w..w + |c.msgs[0]|] == c.msgs[0]
    ensures Frames(c.msgs, w)[w + |c.msgs[0]|..] == Frames(c.msgs[1..], w)
  {
    var k :| 0 <= k <= |c.msgs| && available == |Frames(c.msgs[..k], w)|;
    FirstFrame(c.msgs, k, w);
  }

  /** Without a message there is nothing past the prefix to see. */
  lemma NothingSampled(c: Channel, available: nat, w: nat)
    requires c.Messages? && AllSendable(c.msgs, w) && Sampled(c, available, w) && available <= w
    ensures available == 0
  {
    var k :| 0 <= k <= |c.msgs| && available == |Frames(c.msgs[..k], w)|;
    if k > 0 { FirstFrame(c.msgs, k, w); }
  }

  /** Of a message buffer a receive reads the prefix first, which says how long the message is, then
      the message, and leaves the messages behind it. */
  lemma TakenMessage(bytes: seq<Byte>, b: Ring, c: Channel, available: nat, w: nat)
    requires Holds(bytes, b, c, w) && Sampled(c, available, w) && w < available && c.Messages?
    ensures available <= BytesInBuffer(b) && c.msgs != [] && |c.msgs[0]| <= available - w
    ensures DecodeLength(Peek(bytes, b.base, b.length, b.tail, w)) == |c.msgs[0]|
    ensures Peek(bytes, b.base, b.length, Wrap(b.tail + w, b.length), |c.msgs[0]|) == c.msgs[0]
  {
    SampleHoldsFirst(c, available, w);
    DecodeEncode(|c.msgs[0]|, w);
    PeekTwice(bytes, b, w, |c.msgs[0]|);
  }

  lemma MessageLeaves(bytes: seq<Byte>, b: Ring, c: Channel, limit: nat, available: nat, w: nat)
    requires Holds(bytes, b, c, w) && Sampled(c, available, w) && w < available && c.Messages?
    ensures c.msgs != []
    ensures Handed(c, limit, available) == if |c.msgs[0]| <= limit then c.msgs[0] else []
    ensures |c.msgs[0]| <= limit ==>
      Holds(bytes, b.(tail := Wrap(Wrap(b.tail + w, b.length) + |c.msgs[0]|, b.length)), Received(c, limit, available), w)
    ensures |c.msgs[0]| > limit ==> Received(c, limit, available) == c
  {
    hide Sampled, Frames, Peek, EncodeLength;
    SampleHoldsFirst(c, available, w);
    PeekTwice(bytes, b, w, |c.msgs[0]|);
  }

  lemma BytesLeave(bytes: seq<Byte>, b: Ring, c: Channel, limit: nat, available: nat, w: nat)
    requires Holds(bytes, b, c, w) && Sampled(c, available, w) && c.Stream?
    ensures var n := if limit <= available then limit else available;
      && n <= BytesInBuffer(b)
      && Peek(bytes, b.base, b.length, b.tail, n) == Handed(c, limit, available)
      && Holds(bytes, b.(tail := Wrap(b.tail + n, b.length)), Received(c, limit, available), w)
      && (n == 0 ==> Received(c, limit, available) == c)
  {
    PeekTakes(bytes, b, if limit <= available then limit else available);
  }

  /** A receive that finds no more than a prefix finds nothing at all. */
  lemma NothingToReceive(c: Channel, limit: nat, available: nat, w: nat)
    requires available == |BytesOf(c, w)| && available <= if c.Messages? then w else 0
    requires c.Messages? ==> AllSendable(c.msgs, w)
    ensures Handed(c, limit, available) == [] && Received(c, limit, available) == c
  {
    EverythingIsSampled(c, w);
    if c.Messages? { NothingSampled(c, available, w); }
  }

  lemma WaitingShows(c: Channel, w: nat)
    requires c.Messages? && AllSendable(c.msgs, w)
    ensures c.msgs != [] <==> |Frames(c.msgs, w)| > w
  {
    if c.msgs != [] { FirstFrame(c.msgs, |c.msgs|, w); }
  }

  // -------------------------------------------------- any run of the two --

  datatype Step = SendStep(data: seq<Byte>, space: nat) | ReceiveStep(limit: nat, available: nat)

  ghost predicate Enabled(c: Channel, step: Step, w: nat) {
    match step
    case SendStep(data, _) => c.Messages? ==> |data| < Pow256(w)
    case ReceiveStep(_, available) => Sampled(c, available, w)
  }

  ghost function After(c: Channel, step: Step, w: nat): Channel
    requires Enabled(c, step, w)
  {
    match step
    case SendStep(data, space) => Sent(c, data, space, w)
    case ReceiveStep(limit, available) => Received(c, limit, available)
  }

  /** What a step puts in, and what it takes out. */
  ghost function In(c: Channel, step: Step, w: nat): seq<Message> {
    match step
    case SendStep(data, space) =>
      var n := Accepted(c, data, space, w);
      if n == 0 then [] else [data[..n]]
    case ReceiveStep(_, _) => []
  }

  ghost function Out(c: Channel, step: Step, w: nat): seq<Message>
    requires Enabled(c, step, w)
  {
    match step
    case SendStep(_, _) => []
    case ReceiveStep(limit, available) =>
      var out := Handed(c, limit, available);
      if out == [] then [] else [out]
  }

  ghost predicate CanRun(c: Channel, steps: seq<Step>, w: nat)
    decreases |steps|
  {
    steps == [] || (Enabled(c, steps[0], w) && CanRun(After(c, steps[0], w), steps[1..], w))
  }

  ghost function RunEnd(c: Channel, steps: seq<Step>, w: nat): Channel
    requires CanRun(c, steps, w)
    decreases |steps|
  {
    if steps == [] then c else RunEnd(After(c, steps[0], w), steps[1..], w)
  }

  ghost function RunIn(c: Channel, steps: seq<Step>, w: nat): seq<Message>
    requires CanRun(c, steps, w)
    decreases |steps|
  {
    if steps == [] then [] else In(c, steps[0], w) + RunIn(After(c, steps[0], w), steps[1..], w)
  }

  ghost function RunOut(c: Channel, steps: seq<Step>, w: nat): seq<Message>
    requires CanRun(c, steps, w)
    decreases |steps|
  {
    if steps == [] then [] else Out(c, steps[0], w) + RunOut(After(c, steps[0], w), steps[1..], w)
  }

  function Concat(parts: seq<Message>): seq<Byte> {
    if parts == [] then [] else parts[0] + Concat(parts[1..])
  }

  lemma {:induction false} ConcatSplits(a: seq<Message>, b: seq<Message>)
    ensures Concat(a + b) == Concat(a) + Concat(b)
  {
    if a == [] {
      assert a + b == b;
    } else {
      assert (a + b)[1..] == a[1..] + b;
      ConcatSplits(a[1..], b);
    }
  }

  /** Two balanced stretches of a run make one. */
  lemma Balance<T>(start: seq<T>, in1: seq<T>, out1: seq<T>, middle: seq<T>, in2: seq<T>, out2: seq<T>, end: seq<T>)
    requires start + in1 == out1 + middle && middle + in2 == out2 + end
    ensures start + (in1 + in2) == (out1 + out2) + end
  {
    assert start + (in1 + in2) == (start + in1) + in2;
    assert (out1 + middle) + in2 == out1 + (middle + in2);
    assert out1 + (out2 + end) == (out1 + out2) + end;
  }

  lemma ConcatOfOne(m: Message)
    ensures Concat([m]) == m
  {
    assert [m][1..] == [];
  }

  /** Whatever sends and receives interleave: the messages handed out, followed by those still in the
      buffer, are the messages accepted, whole and in order, behind those there at the start. */
  lemma {:induction false} MessagesInOrder(c: Channel, steps: seq<Step>, w: nat)
    requires c.Messages? && CanRun(c, steps, w)
    ensures RunEnd(c, steps, w).Messages?
    ensures c.msgs + RunIn(c, steps, w) == RunOut(c, steps, w) + RunEnd(c, steps, w).msgs
    decreases |steps|
  {
    if steps != [] {
      var next, rest := After(c, steps[0], w), steps[1..];
      MessagesInOrder(next, rest, w);
      var i, o := In(c, steps[0], w), Out(c, steps[0], w);
      MessageStep(c, steps[0], w);
      Balance(c.msgs, i, o, next.msgs, RunIn(next, rest, w), RunOut(next, rest, w), RunEnd(next, rest, w).msgs);
    }
  }

  lemma MessageStep(c: Channel, step: Step, w: nat)
    requires c.Messages? && Enabled(c, step, w)
    ensures After(c, step, w).Messages?
    ensures c.msgs + In(c, step, w) == Out(c, step, w) + After(c, step, w).msgs
  {
    if step.SendStep? {
      assert step.data[..|step.data|] == step.data;
    } else if Handed(c, step.limit, step.available) != [] {
      assert c.msgs == [c.msgs[0]] + c.msgs[1..];
    }
  }

  /** The same of a stream buffer, byte by byte: it is a queue of bytes. */
  lemma {:induction false} BytesInOrder(c: Channel, steps: seq<Step>, w: nat)
    requires c.Stream? && CanRun(c, steps, w)
    ensures RunEnd(c, steps, w).Stream?
    ensures c.data + Concat(RunIn(c, steps, w)) == Concat(RunOut(c, steps, w)) + RunEnd(c, steps, w).data
    decreases |steps|
  {
    if steps != [] {
      var next, rest := After(c, steps[0], w), steps[1..];
      BytesInOrder(next, rest, w);
      var i, o := In(c, steps[0], w), Out(c, steps[0], w);
      ByteStep(c, steps[0], w);
      ConcatSplits(i, RunIn(next, rest, w));
      ConcatSplits(o, RunOut(next, rest, w));
      Balance(c.data, Concat(i), Concat(o), next.data, Concat(RunIn(next, rest, w)),
              Concat(RunOut(next, rest, w)), RunEnd(next, rest, w).data);
    }
  }

  lemma ByteStep(c: Channel, step: Step, w: nat)
    requires c.Stream? && Enabled(c, step, w)
    ensures After(c, step, w).Stream?
    ensures c.data + Concat(In(c, step, w)) == Concat(Out(c, step, w)) + After(c, step, w).data
  {
    var i, o := In(c, step, w), Out(c, step, w);
    if step.ReceiveStep? {
      ConcatOfOne(Handed(c, step.limit, step.available));
    } else {
      ConcatOfOne(step.data[..Accepted(c, step.data, step.space, w)]);
    }
  }

  // ------------------------------------------------------------ the others --

  lemma OneBufferMoved(bytes: seq<Byte>, buffers: map<Handle, Ring>, model: map<Handle, Channel>, w: nat,
                       h: Handle, data: seq<Byte>, r: Ring, c: Channel)
    requires AllHold(bytes, buffers, model, w) && Separate(buffers) && h in buffers
    requires |data| <= buffers[h].length && ExtentOf(r) == ExtentOf(buffers[h])
    requires Holds(Poke(bytes, buffers[h].base, buffers[h].length, data, buffers[h].head), r, c, w)
    ensures AllHold(Poke(bytes, buffers[h].base, buffers[h].length, data, buffers[h].head),
                    buffers[h := r], model[h := c], w)
    ensures Separate(buffers[h := r])
    ensures LiveExtents(buffers[h := r]) == LiveExtents(buffers)
  {
    var b := buffers[h];
    var after := Poke(bytes, b.base, b.length, data, b.head);
    forall g | g in buffers && g != h ensures Holds(after, buffers[g], model[g], w) {
      PokeElsewhere(bytes, b, data, b.head, buffers[g]);
    }
    SameExtents(buffers, h, r);
  }

  lemma SameExtents(buffers: map<Handle, Ring>, h: Handle, r: Ring)
    requires h in buffers && ExtentOf(r) == ExtentOf(buffers[h])
    ensures LiveExtents(buffers[h := r]) == LiveExtents(buffers)
  {
    var after := buffers[h := r];
    forall e | e in LiveExtents(buffers) ensures e in LiveExtents(after) {
      var g :| g in buffers && ExtentOf(buffers[g]) == e;
      assert g in after && ExtentOf(after[g]) == e;
    }
    forall e | e in LiveExtents(after) ensures e in LiveExtents(buffers) {
      var g :| g in after && ExtentOf(after[g]) == e;
      assert g in buffers && ExtentOf(buffers[g]) == e;
    }
  }

  /** An extent a new buffer may have: inside the arena and apart from every other buffer's. */
  ghost predicate FreshExtent(buffers: map<Handle, Ring>, e: Extent, bytes: nat) {
    && 0 < e.len && e.End() <= bytes
    && forall g :: g in buffers ==> Apart(ExtentOf(buffers[g]), e)
  }

  lemma TakenIsFresh(buffers: map<Handle, Ring>, others: set<Extent>, free: set<Extent>, used: nat, e: Extent, bytes: nat)
    requires e !in LiveExtents(buffers) && used <= bytes
    requires Tiles(LiveExtents(buffers) + {e} + others, free, used)
    ensures FreshExtent(buffers, e, bytes)
  {
    var all := LiveExtents(buffers) + {e} + others + free;
    assert e in all;
    forall g | g in buffers ensures Apart(ExtentOf(buffers[g]), e) {
      assert ExtentOf(buffers[g]) in LiveExtents(buffers) && ExtentOf(buffers[g]) in all;
    }
  }

  lemma BufferJoins(bytes: seq<Byte>, buffers: map<Handle, Ring>, model: map<Handle, Channel>, w: nat,
                    h: Handle, b: Ring, c: Channel)
    requires AllHold(bytes, buffers, model, w) && Separate(buffers) && h !in buffers
    requires FreshExtent(buffers, ExtentOf(b), |bytes|) && b.head == b.tail == 0
    requires c == NewChannel(b.length - 1, b.isMessage)
    ensures AllHold(bytes, buffers[h := b], model[h := c], w)
    ensures Separate(buffers[h := b])
    ensures LiveExtents(buffers[h := b]) == LiveExtents(buffers) + {ExtentOf(b)}
  {
    assert Contents(bytes, b) == [];
    ExtentsWith(buffers, h, b);
  }

  lemma ExtentsWith(buffers: map<Handle, Ring>, h: Handle, b: Ring)
    requires h !in buffers
    ensures LiveExtents(buffers[h := b]) == LiveExtents(buffers) + {ExtentOf(b)}
  {
    var after := buffers[h := b];
    assert after[h] == b;
    forall e | e in LiveExtents(buffers) ensures e in LiveExtents(after) {
      var g :| g in buffers && ExtentOf(buffers[g]) == e;
      assert g in after && after[g] == buffers[g];
    }
  }

  lemma BufferLeaves(buffers: map<Handle, Ring>, h: Handle)
    requires h in buffers && Separate(buffers)
    requires forall g :: g in buffers ==> 0 < buffers[g].length
    ensures LiveExtents(buffers - {h}) == LiveExtents(buffers) - {ExtentOf(buffers[h])}
    ensures |buffers - {h}| == |buffers| - 1
  {
    var after, gone := buffers - {h}, ExtentOf(buffers[h]);
    forall e | e in LiveExtents(buffers) && e != gone ensures e in LiveExtents(after) {
      var g :| g in buffers && ExtentOf(buffers[g]) == e;
      assert g in after && after[g] == buffers[g];
    }
    forall e | e in LiveExtents(after) ensures e in LiveExtents(buffers) && e != gone {
      var g :| g in after && ExtentOf(after[g]) == e;
      assert g in buffers && buffers[g] == after[g];
      assert Apart(ExtentOf(buffers[g]), gone);
    }
    assert after.Keys == buffers.Keys - {h};
    assert |buffers.Keys| == |buffers| && |after.Keys| == |after|;
  }

  lemma {:induction false} ExtentsAtMostBuffers(buffers: map<Handle, Ring>)
    ensures |LiveExtents(buffers)| <= |buffers|
    decreases |buffers|
  {
    if buffers == map[] {
      assert LiveExtents(buffers) == {};
    } else {
      var h :| h in buffers;
      var rest := buffers - {h};
      assert |rest| == |buffers| - 1 by {
        assert rest.Keys == buffers.Keys - {h};
        assert |buffers.Keys| == |buffers| && |rest.Keys| == |rest|;
      }
      ExtentsAtMostBuffers(rest);
      ExtentsWith(rest, h, buffers[h]);
      assert rest[h := buffers[h]] == buffers;
    }
  }

  /** The descriptor arena and the byte arena: all a send or a receive touches. */
  class StreamTable {
    const bytes: array<Byte>
    /** `MESSAGE_LENGTH_BYTES`. */
    const prefix: nat
    var buffers: map<Handle, Ring>
    var unissued: Handle
    /** What the buffers are to their users. */
    ghost var model: map<Handle, Channel>

    ghost predicate Valid()
      reads this, bytes
    {
      && 1 <= prefix <= 8
      && (forall h :: h in buffers ==> h < unissued)
      && Separate(buffers)
      && AllHold(bytes[..], buffers, model, prefix)
    }

    constructor (byteCount: nat, prefix: nat)
      requires 1 <= prefix <= 8
      ensures Valid() && buffers == map[] && model == map[] && fresh(bytes) && bytes.Length == byteCount
      ensures this.prefix == prefix
    {
      bytes := new Byte[byteCount](_ => 0);
      this.prefix := prefix;
      buffers, unissued, model := map[], 0, map[];
    }

    /** `write_bytes_into`: the ring wrap, in two copies. */
    method WriteBytesInto(base: nat, length: nat, data: seq<Byte>, head: nat) returns (next: nat)
      requires base + length <= bytes.Length && head < length && |data| <= length
      modifies bytes
      ensures bytes[..] == Poke(old(bytes[..]), base, length, data, head)
      ensures next == Wrap(head + |data|, length)
    {
      ghost var was, after := bytes[..], Poke(bytes[..], base, length, data, head);
      var upto := length - head;
      var first := if |data| <= upto then |data| else upto;
      forall i | 0 <= i < first { bytes[base + head + i] := data[i]; }
      var rest := |data| - first;
      if rest > 0 {
        forall i | 0 <= i < rest { bytes[base + i] := data[first + i]; }
        assert bytes[..] == after by { LaidOut(was, bytes[..], base, length, data, head); }
        return rest;
      }
      assert bytes[..] == after by { LaidOut(was, bytes[..], base, length, data, head); }
      next := if head + first >= length then 0 else head + first;
    }

    /** `read_bytes_from`, its mirror. */
    method ReadBytesFrom(base: nat, length: nat, count: nat, tail: nat) returns (out: seq<Byte>, next: nat)
      requires base + length <= bytes.Length && tail < length && count <= length
      ensures out == Peek(bytes[..], base, length, tail, count)
      ensures next == Wrap(tail + count, length)
    {
      var upto := length - tail;
      var first := if count <= upto then count else upto;
      out := bytes[base + tail..base + tail + first];
      var rest := count - first;
      if rest > 0 {
        out := out + bytes[base..base + rest];
        ReadOut(bytes[..], out, base, length, tail, count);
        return out, rest;
      }
      ReadOut(bytes[..], out, base, length, tail, count);
      next := if tail + first >= length then 0 else tail + first;
    }

    /** `write_message`, its copying half: the prefix if the whole frame fits, then the data. */
    method LayMessage(b: Ring, data: seq<Byte>, space: nat, required: nat, ghost c: Channel)
      returns (written: nat, next: nat)
      requires Stored(b, bytes.Length) && space <= SpacesAvailable(b) && c.Messages? == b.isMessage
      requires b.isMessage ==> required == |data| + prefix
      modifies bytes
      ensures written == Accepted(c, data, space, prefix)
      ensures written ==
        if !b.isMessage then (if |data| < space then |data| else space) else if |data| + prefix <= space then |data| else 0
      ensures |Laid(c, data, space, prefix)| <= space
      ensures bytes[..] == Poke(old(bytes[..]), b.base, b.length, Laid(c, data, space, prefix), b.head)
      ensures written != 0 ==> next == Wrap(b.head + |Laid(c, data, space, prefix)|, b.length)
    {
      ghost var was := bytes[..];
      var length, left := |data|, space;
      next := b.head;
      if b.isMessage {
        if space >= required {
          PokeTwice(was, b.base, b.length, EncodeLength(length, prefix), data, b.head);
          next := WriteBytesInto(b.base, b.length, EncodeLength(length, prefix), next);
        } else {
          length := 0;
        }
        left := if left >= prefix then left - prefix else 0;
      }
      written := if length <= left then length else left;
      assert data[..|data|] == data;
      if written != 0 {
        next := WriteBytesInto(b.base, b.length, data[..written], next);
      } else {
        PokeNothing(was, b.base, b.length, b.head);
        assert EncodeLength(|data|, prefix) + [] == EncodeLength(|data|, prefix);
      }
    }

    /** `write_message`.  `space` is what the writer last saw free; its reader can only have freed
        more since. */
    method WriteMessage(buffer: Handle, data: seq<Byte>, space: nat, required: nat) returns (written: nat)
      requires Valid() && buffer in buffers
      requires space <= SpacesAvailable(buffers[buffer])
      requires model[buffer].Messages? ==> required == |data| + prefix && |data| < Pow256(prefix)
      modifies this`buffers, this`model, bytes
      ensures Valid() && LiveExtents(buffers) == old(LiveExtents(buffers))
      ensures written == Accepted(old(model)[buffer], data, space, prefix)
      ensures buffer in model && SendOutcome(old(model)[buffer], data, space, prefix, written, model[buffer])
      ensures model == old(model)[buffer := Sent(old(model)[buffer], data, space, prefix)]
    {
      hide Frames, Frame, Contents, Poke, Peek, Handed, Received, Sampled;
      var b := buffers[buffer];
      ghost var was, c := bytes[..], model[buffer];
      LaidIsSent(was, b, c, data, space, prefix);
      SendExactly(c, data, space, prefix);
      var next;
      written, next := LayMessage(b, data, space, required, c);
      var r := if written == 0 then b else b.(head := next);
      OneBufferMoved(was, buffers, model, prefix, buffer, Laid(c, data, space, prefix), r, Sent(c, data, space, prefix));
      buffers := buffers[buffer := r];
      model := model[buffer := Sent(c, data, space, prefix)];
    }

    /** `read_length_prefix_from`: the message length back out, and where the message starts. */
    method ReadLengthPrefix(base: nat, length: nat, tail: nat) returns (n: nat, next: nat)
      requires base + length <= bytes.Length && tail < length && prefix <= length
      ensures n == DecodeLength(Peek(bytes[..], base, length, tail, prefix))
      ensures next == Wrap(tail + prefix, length)
    {
      var raw;
      raw, next := ReadBytesFrom(base, length, prefix, tail);
      n := DecodeLength(raw);
    }

    /** `read_message`, its end: `count` bytes from `from` on, and the tail behind them; nothing read
        leaves the tail alone. */
    method TakeBytes(b: Ring, from: nat, count: nat) returns (out: seq<Byte>, next: nat)
      requires Stored(b, bytes.Length) && from < b.length && count <= b.length
      ensures out == Peek(bytes[..], b.base, b.length, from, count) && next < b.length
      ensures next == if count == 0 then b.tail else Wrap(from + count, b.length)
    {
      if count == 0 {
        return [], b.tail;
      }
      out, next := ReadBytesFrom(b.base, b.length, count, from);
    }

    /** `read_message`, of a message buffer: the length, then the message unless it is too long. */
    method TakeFramed(b: Ring, limit: nat, available: nat, ghost c: Channel) returns (out: seq<Byte>, next: nat)
      requires Holds(bytes[..], b, c, prefix) && Sampled(c, available, prefix) && prefix < available
      requires b.isMessage
      ensures out == Handed(c, limit, available) && next < b.length
      ensures Holds(bytes[..], b.(tail := next), Received(c, limit, available), prefix)
    {
      hide Laid, Frames, Frame, Contents, Poke, AllSendable;
      TakenMessage(bytes[..], b, c, available, prefix);
      MessageLeaves(bytes[..], b, c, limit, available, prefix);
      var messageLength, start := ReadLengthPrefix(b.base, b.length, b.tail);
      var left := available - prefix;
      var nextLength := if messageLength > limit then 0 else messageLength;
      var count := if nextLength <= left then nextLength else left;
      out, next := TakeBytes(b, start, count);
    }

    /** `read_message`, before the descriptor is written back. */
    method TakeMessage(b: Ring, limit: nat, available: nat, ghost c: Channel) returns (out: seq<Byte>, next: nat)
      requires Holds(bytes[..], b, c, prefix) && Sampled(c, available, prefix)
      requires b.isMessage ==> prefix < available
      ensures out == Handed(c, limit, available) && next < b.length
      ensures Holds(bytes[..], b.(tail := next), Received(c, limit, available), prefix)
    {
      if b.isMessage {
        out, next := TakeFramed(b, limit, available, c);
      } else {
        BytesLeave(bytes[..], b, c, limit, available, prefix);
        out, next := TakeBytes(b, b.tail, if limit <= available then limit else available);
      }
    }

    /** `read_message`.  `available` is what the reader last saw there; its writer can only have
        added whole sends since. */
    method ReadMessage(buffer: Handle, limit: nat, available: nat) returns (out: seq<Byte>)
      requires Valid() && buffer in buffers && (buffers[buffer].isMessage ==> prefix < available)
      requires Sampled(model[buffer], available, prefix)
      modifies this`buffers, this`model
      ensures Valid() && LiveExtents(buffers) == old(LiveExtents(buffers))
      ensures out == Handed(old(model)[buffer], limit, available)
      ensures buffer in model && ReceiveOutcome(old(model)[buffer], limit, available, out, model[buffer])
      ensures model == old(model)[buffer := Received(old(model)[buffer], limit, available)]
    {
      var b := buffers[buffer];
      ghost var c := model[buffer];
      assert Holds(bytes[..], b, c, prefix);
      ReceiveExactly(c, limit, available, prefix);
      var next;
      out, next := TakeMessage(b, limit, available, c);
      var r := b.(tail := next);
      PokeNothing(bytes[..], b.base, b.length, b.head);
      OneBufferMoved(bytes[..], buffers, model, prefix, buffer, [], r, Received(c, limit, available));
      buffers := buffers[buffer := r];
      model := model[buffer := Received(c, limit, available)];
    }

    /** `stream_buffer_send_from_isr`: one send against the space there is now. */
    method SendFromIsr(buffer: Handle, data: seq<Byte>) returns (r: Result<nat>)
      requires Valid()
      requires buffer in buffers && model[buffer].Messages? ==> |data| < Pow256(prefix)
      modifies this`buffers, this`model, bytes
      ensures Valid() && LiveExtents(buffers) == old(LiveExtents(buffers))
      ensures buffer !in old(model) ==> r == Err(Gone) && model == old(model)
      ensures buffer in old(model) ==>
        var c := old(model)[buffer];
        var space := c.size - |BytesOf(c, prefix)|;
        && r == Ok(Accepted(c, data, space, prefix))
        && buffer in model && SendOutcome(c, data, space, prefix, r.value, model[buffer])
        && model == old(model)[buffer := Sent(c, data, space, prefix)]
    {
      if buffer !in buffers {
        return Err(Gone);
      }
      var b := buffers[buffer];
      var required := |data|;
      if b.isMessage {
        required := required + prefix;
      } else if required > b.length - 1 {
        required := b.length - 1;
      }
      SpareByte(b);
      var written := WriteMessage(buffer, data, SpacesAvailable(b), required);
      r := Ok(written);
    }

    /** `stream_buffer_receive_from_isr`: one receive of what is there now. */
    method ReceiveFromIsr(buffer: Handle, limit: nat) returns (r: Result<seq<Byte>>)
      requires Valid()
      modifies this`buffers, this`model
      ensures Valid() && LiveExtents(buffers) == old(LiveExtents(buffers))
      ensures buffer !in old(model) ==> r == Err(Gone) && model == old(model)
      ensures buffer in old(model) ==>
        var c := old(model)[buffer];
        var available := |BytesOf(c, prefix)|;
        && r == Ok(Handed(c, limit, available))
        && buffer in model && ReceiveOutcome(c, limit, available, r.value, model[buffer])
        && model == old(model)[buffer := Received(c, limit, available)]
    {
      if buffer !in buffers {
        return Err(Gone);
      }
      var b := buffers[buffer];
      var available := BytesInBuffer(b);
      assert Holds(bytes[..], b, model[buffer], prefix);
      ReceiveExactly(model[buffer], limit, available, prefix);
      EverythingIsSampled(model[buffer], prefix);
      if available <= if b.isMessage then prefix else 0 {
        NothingToReceive(model[buffer], limit, available, prefix);
        return Ok([]);
      }
      var out := ReadMessage(buffer, limit, available);
      r := Ok(out);
    }

    /** `stream_buffer_next_message_length`: the length of the first message waiting, or 0. */
    method NextMessageLength(buffer: Handle) returns (r: Result<nat>)
      requires Valid()
      ensures r == if buffer !in model then Err(Gone)
                   else if model[buffer].Messages? && model[buffer].msgs != [] then Ok(|model[buffer].msgs[0]|)
                   else Ok(0)
    {
      if buffer !in buffers {
        return Err(Gone);
      }
      var b := buffers[buffer];
      ghost var c := model[buffer];
      if !b.isMessage {
        return Ok(0);
      }
      var available := BytesInBuffer(b);
      EverythingIsSampled(c, prefix);
      if available <= prefix {
        NothingSampled(c, available, prefix);
        WaitingShows(c, prefix);
        return Ok(0);
      }
      TakenMessage(bytes[..], b, c, available, prefix);
      var n, _ := ReadLengthPrefix(b.base, b.length, b.tail);
      r := Ok(n);
    }

    /** `stream_buffer_reset`: emptied, unless a task is waiting on it. */
    method Reset(buffer: Handle, waiting: bool) returns (done: bool)
      requires Valid()
      modifies this`buffers, this`model
      ensures Valid() && LiveExtents(buffers) == old(LiveExtents(buffers))
      ensures done <==> buffer in old(model) && !waiting
      ensures model == if done then old(model)[buffer := Emptied(old(model)[buffer])] else old(model)
      ensures done && old(model)[buffer].Stream? ==> model[buffer] == Stream(old(model)[buffer].size, [])
      ensures done && old(model)[buffer].Messages? ==> model[buffer] == Messages(old(model)[buffer].size, [])
    {
      if buffer !in buffers || waiting {
        return false;
      }
      var b := buffers[buffer];
      var r := b.(head := 0, tail := 0);
      assert Contents(bytes[..], r) == [];
      PokeNothing(bytes[..], b.base, b.length, b.head);
      OneBufferMoved(bytes[..], buffers, model, prefix, buffer, [], r, Emptied(model[buffer]));
      buffers := buffers[buffer := r];
      model := model[buffer := Emptied(model[buffer])];
      done := true;
    }

    /** The arena issues a handle for a buffer made on bytes no buffer holds. */
    method Insert(base: nat, size: nat, isMessage: bool) returns (h: Handle)
      requires Valid() && FreshExtent(buffers, Extent(base, size + 1), bytes.Length)
      modifies this
      ensures Valid() && h !in old(buffers) && h !in old(model) && |buffers| == |old(buffers)| + 1
      ensures LiveExtents(buffers) == old(LiveExtents(buffers)) + {Extent(base, size + 1)}
      ensures model == old(model)[h := NewChannel(size, isMessage)]
      ensures model[h] == if isMessage then Messages(size, []) else Stream(size, [])
    {
      hide LiveExtents, Separate, FreshExtent, Holds;
      h := unissued;
      var b := Ring(base, size + 1, 0, 0, isMessage);
      BufferJoins(bytes[..], buffers, model, prefix, h, b, NewChannel(size, isMessage));
      buffers := buffers[h := b];
      model := model[h := NewChannel(size, isMessage)];
      unissued := unissued + 1;
    }

    /** `discard`: the handle goes stale. */
    method Discard(buffer: Handle)
      requires Valid() && buffer in buffers
      modifies this`buffers, this`model
      ensures Valid() && |buffers| < |old(buffers)|
      ensures LiveExtents(buffers) == old(LiveExtents(buffers)) - {old(ExtentOf(buffers[buffer]))}
      ensures model == old(model) - {buffer}
    {
      BufferLeaves(buffers, buffer);
      buffers := buffers - {buffer};
      model := model - {buffer};
    }
  }

  // ------------------------------------------------------------ the store --

  class StreamStore {
    const pool: ExtentPool
    const table: StreamTable
    /** `BUFFERS`: how many descriptors there are. */
    const limit: nat

    ghost predicate Valid()
      reads this, pool, pool.free, table, table.bytes
    {
      && PoolOk()
      && table.Valid() && |table.buffers| <= limit
      && pool.live == LiveExtents(table.buffers)
    }

    ghost predicate PoolOk()
      reads this, pool, pool.free
    {
      pool.Valid() && pool.capacity == table.bytes.Length && pool.free.Length == limit
    }

    constructor (byteCount: nat, limit: nat, prefix: nat)
      requires 1 <= prefix <= 8
      ensures Valid() && table.model == map[] && table.buffers == map[] && pool.used == 0 && pool.stranded == {}
      ensures pool.capacity == byteCount && this.limit == limit && pool.count == 0 && table.prefix == prefix
      ensures fresh(pool) && fresh(pool.free) && fresh(table) && fresh(table.bytes)
    {
      pool := new ExtentPool(limit, byteCount);
      table := new StreamTable(byteCount, prefix);
      this.limit := limit;
      new;
      hide Tiles, Distinct, Separate, AllHold;
      assert LiveExtents(table.buffers) == {};
    }

    /** Nobody holds the extent any more and no list records it. */
    ghost method Strand(e: Extent)
      requires PoolOk() && e in pool.live
      modifies pool`live, pool`stranded
      ensures PoolOk()
      ensures pool.live == old(pool.live) - {e} && pool.stranded == old(pool.stranded) + {e}
    {
      assert pool.live - {e} + (pool.stranded + {e}) == pool.live + pool.stranded;
      pool.live := pool.live - {e};
      pool.stranded := pool.stranded + {e};
    }

    /** `take_bytes`. */
    method TakeBytes(length: nat) returns (base: Option<nat>)
      requires Valid() && 0 < length
      modifies pool, pool.free
      ensures PoolOk() && pool.stranded == old(pool.stranded) && pool.used <= old(pool.used) + length
      ensures base.None? <==> !Fits(old(pool.free[..pool.count]), length) && old(pool.used) + length > pool.capacity
      ensures base.None? ==> pool.live == old(pool.live)
      ensures base.Some? ==>
        var e := Extent(base.value, length);
        && e !in old(pool.live) && e !in pool.stranded && pool.live == old(pool.live) + {e}
        && FreshExtent(table.buffers, e, table.bytes.Length)
    {
      base := pool.Take(length);
      if base.Some? {
        TakenIsFresh(table.buffers, pool.stranded, Elems(pool.free[..pool.count]), pool.used,
                     Extent(base.value, length), table.bytes.Length);
      }
    }

    /** `give_bytes`, for a buffer already gone. */
    method GiveBytes(base: nat, length: nat)
      requires PoolOk() && |pool.live| <= limit && Extent(base, length) in pool.live
      requires table.Valid()
      modifies pool, pool.free
      ensures table.Valid()
      ensures PoolOk() && pool.live == old(pool.live) - {Extent(base, length)}
      ensures pool.stranded >= old(pool.stranded)
      ensures |pool.live + old(pool.stranded)| <= limit ==> pool.stranded == old(pool.stranded)
      ensures old(pool.stranded) == {} ==> pool.stranded == {}
    {
      assert pool.live - {Extent(base, length)} <= pool.live;
      assert pool.live - {Extent(base, length)} + {} == pool.live - {Extent(base, length)};
      pool.Give(base, length);
    }

    /** `new_stream_buffer`.  The bytes are taken before the descriptor, and a descriptor refused then
        does NOT give them back: they are stranded for good. */
    method NewStreamBuffer(size: nat, trigger: nat, isMessage: bool)
      returns (r: Result<Handle>, ghost lost: Option<Extent>)
      requires Valid()
      modifies table, pool, pool.free
      ensures Valid()
      ensures r.Ok? <==> 0 < size && trigger <= size && |old(table.buffers)| < limit && !old(NoBytes(size + 1))
      ensures r == Err(InvalidArgument) <==> size == 0 || trigger > size
      ensures r.Ok? || r == Err(InvalidArgument) || r == Err(OutOfRoom)
      ensures r.Ok? ==> r.value !in old(table.model) && |table.buffers| == |old(table.buffers)| + 1
      ensures r.Ok? ==> table.model == old(table.model)[r.value := NewChannel(size, isMessage)]
      ensures r.Err? ==> unchanged(table) && pool.live == old(pool.live)
      ensures lost.Some? <==> 0 < size && trigger <= size && |old(table.buffers)| >= limit && !old(NoBytes(size + 1))
      ensures lost.None? ==> pool.stranded == old(pool.stranded)
      ensures lost.Some? ==>
        && lost.value.len == size + 1 && lost.value !in old(pool.live) && lost.value !in old(pool.stranded)
        && pool.stranded == old(pool.stranded) + {lost.value}
      ensures pool.used <= old(pool.used) + size + 1
    {
      hide LiveExtents, Separate, AllHold, Tiles, Partition, Coalesced, ClearOf, Elems, Distinct;
      lost := None;
      if size == 0 || trigger > size {
        return Err(InvalidArgument), None;
      }
      var length := size + 1;
      var taken := TakeBytes(length);
      if taken.None? {
        return Err(OutOfRoom), None;
      }
      if |table.buffers| >= limit {
        lost := Some(Extent(taken.value, length));
        Strand(lost.value);
        return Err(OutOfRoom), lost;
      }
      var h := table.Insert(taken.value, size, isMessage);
      r := Ok(h);
    }

    /** `message_buffer_create`: a buffer that could not take one prefix and a byte is refused at once. */
    method MessageBufferCreate(size: nat) returns (r: Result<Handle>, ghost lost: Option<Extent>)
      requires Valid()
      modifies table, pool, pool.free
      ensures Valid()
      ensures r.Ok? <==> table.prefix < size && |old(table.buffers)| < limit && !old(NoBytes(size + 1))
      ensures r == Err(InvalidArgument) <==> size <= table.prefix
      ensures r.Ok? ==> r.value !in old(table.model) && table.model == old(table.model)[r.value := Messages(size, [])]
      ensures r.Err? ==> unchanged(table) && pool.live == old(pool.live)
      ensures lost.Some? <==> table.prefix < size && |old(table.buffers)| >= limit && !old(NoBytes(size + 1))
      ensures lost.None? ==> pool.stranded == old(pool.stranded)
      ensures lost.Some? ==> lost.value.len == size + 1 && pool.stranded == old(pool.stranded) + {lost.value}
    {
      if size <= table.prefix {
        return Err(InvalidArgument), None;
      }
      r, lost := NewStreamBuffer(size, 1, true);
    }

    /** Neither a hole nor the tail has room for a ring of this length. */
    predicate NoBytes(length: nat)
      requires pool.count <= pool.free.Length
      reads this, pool, pool.free
    {
      !Fits(pool.free[..pool.count], length) && pool.used + length > pool.capacity
    }

    /** `stream_buffer_delete`. */
    method StreamBufferDelete(buffer: Handle) returns (r: Result<()>)
      requires Valid()
      modifies table, pool, pool.free
      ensures Valid()
      ensures r == if buffer in old(table.model) then Ok(()) else Err(Gone)
      ensures r.Ok? ==> table.model == old(table.model) - {buffer}
      ensures pool.stranded >= old(pool.stranded)
      ensures |pool.live + old(pool.stranded)| <= limit ==> pool.stranded == old(pool.stranded)
      ensures old(pool.stranded) == {} ==> pool.stranded == {}
      ensures r.Err? ==> unchanged(table) && unchanged(pool) && unchanged(pool.free)
    {
      if buffer !in table.buffers {
        return Err(Gone);
      }
      Release(buffer);
      r := Ok(());
    }

    /** Its work: the handle goes stale, and the ring's bytes go back to the arena. */
    method Release(buffer: Handle)
      requires Valid() && buffer in table.buffers
      modifies table, pool, pool.free
      ensures Valid() && table.model == old(table.model) - {buffer}
      ensures pool.stranded >= old(pool.stranded)
      ensures |pool.live + old(pool.stranded)| <= limit ==> pool.stranded == old(pool.stranded)
      ensures old(pool.stranded) == {} ==> pool.stranded == {}
    {
      var b := table.buffers[buffer];
      ExtentsAtMostBuffers(table.buffers);
      table.Discard(buffer);
      GiveBytes(b.base, b.length);
    }
  }

  /** One descriptor, and bytes for two buffers of one byte: the second create is refused its descriptor
      and strands its bytes. */
  method SecondCreateStrands() returns (store: StreamStore, second: Result<Handle>, ghost lost: Option<Extent>)
    ensures fresh(store) && second == Err(OutOfRoom) && lost.Some? && lost.value.len == 2 && store.pool.stranded == {lost.value}
  {
    hide LiveExtents, Separate, AllHold, Tiles, Elems, Distinct;
    store := new StreamStore(4, 1, 4);
    assert !Fits(store.pool.free[..0], 2);
    var first, none := store.NewStreamBuffer(1, 1, false);
    second, lost := store.NewStreamBuffer(1, 1, false);
  }
}
