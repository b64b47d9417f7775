/** The log server's fan-out: the collector's queues and the output connections that drain them. */
module Collectors {
  import opened Bytes
  import opened Bits
  import opened CowMemory
  import opened Streams
  import opened Wire

  // ---------------------------------------------------------------- records

  /** A log record as it arrived: who sent it, and its bytes (type byte first). */
  datatype Record = Record(source: U32, data: Bytes)

  /** sized_buffer: the first `len` bytes of `buffer` are the record. */
  datatype SizedBuffer = SizedBuffer(buffer: Bytes, len: nat, source: U32) {
    predicate Ok() {
      0 < len <= |buffer|
    }

    function AsRecord(): Record
      requires Ok()
    {
      Record(source, buffer[..len])
    }
  }

  /** What a consumer is sent: the source id in network order, then the record. */
  function Tagged(r: Record): Bytes {
    ToBE(r.source) + r.data
  }

  /** The id and the record are read back from what is sent. */
  lemma TaggedReadBack(r: Record)
    ensures |Tagged(r)| == 4 + |r.data| && Number(Tagged(r)[..4]) == r.source && Tagged(r)[4..] == r.data
  {
    assert Tagged(r)[..4] == ToBE(r.source);
    LittleEndianRoundTrip(r.source);
  }

  function TaggedAll(rs: seq<Record>): (bs: seq<Bytes>)
    ensures |bs| == |rs| && forall i :: 0 <= i < |rs| ==> bs[i] == Tagged(rs[i])
  {
    seq(|rs|, i requires 0 <= i < |rs| => Tagged(rs[i]))
  }

  /** output_cxn::handler::interested: x & interests. */
  predicate Interested(interests: Byte, r: Record) {
    r.data != [] && Overlap(r.data[0] as int, interests as int)
  }

  predicate ByteBit(b: Byte, k: nat) {
    Bit(b as int, k)
  }

  /** A consumer is interested in the records whose type has a bit of its mask. */
  lemma InterestedIffBit(interests: Byte, r: Record)
    ensures Interested(interests, r) <==>
            r.data != [] && exists k: nat :: ByteBit(r.data[0], k) && ByteBit(interests, k)
  {
    if r.data != [] {
      OverlapIffBit(r.data[0] as int, interests as int);
      var x: nat, y: nat := r.data[0] as int, interests as int;
      if Overlap(x, y) {
        var k := CommonBit(x, y);
        assert ByteBit(r.data[0], k) && ByteBit(interests, k);
      }
    }
  }

  /** A channel of one type gets exactly the records of that type. */
  lemma ChannelGets(k: nat, r: Record)
    requires k < 8
    ensures Pow2(k) < 256 && (Interested(Pow2(k) as Byte, r) <==> r.data != [] && ByteBit(r.data[0], k))
  {
    PowersOfByte(k);
    InterestedIffBit(Pow2(k) as Byte, r);
    BitsOfPower(k, k);
    forall j: nat | Bit(Pow2(k), j) ensures j == k {
      BitsOfPower(k, j);
    }
  }

  const ALL_INTERESTS: Byte := 255

  /** A subscriber of `all` gets every record whose type byte is not 0. */
  lemma AllTakesEverything(r: Record)
    requires r.data != []
    ensures Interested(ALL_INTERESTS, r) <==> r.data[0] != 0
  {
    OverlapOnes(r.data[0] as int, 8);
  }

  /** The records of a history that a consumer asked for, in order. */
  function Wanted(interests: Byte, rs: seq<Record>): seq<Record> {
    if rs == [] then []
    else
      var n := |rs| - 1;
      if Interested(interests, rs[n]) then Wanted(interests, rs[..n]) + [rs[n]] else Wanted(interests, rs[..n])
  }

  /** What a consumer that joined at `since` wants of the arrivals. */
  function WantedSince(interests: Byte, arrivals: seq<Record>, since: nat): seq<Record> {
    if since <= |arrivals| then Wanted(interests, arrivals[since..]) else []
  }

  lemma WantedSnoc(interests: Byte, arrivals: seq<Record>, since: nat, r: Record)
    requires since <= |arrivals|
    ensures WantedSince(interests, arrivals + [r], since) ==
            if Interested(interests, r) then WantedSince(interests, arrivals, since) + [r]
            else WantedSince(interests, arrivals, since)
  {
    var rs := arrivals[since..];
    assert (arrivals + [r])[since..] == rs + [r];
    assert (rs + [r])[..|rs|] == rs;
  }

  // ---------------------------------------------------------------- one consumer

  /** An output handler and its queue. New records go in at index 0; the oldest is last. */
  datatype Consumer = Consumer(interests: Byte, armed: bool, writeQueue: WriteQueue, queue: seq<SizedBuffer>,
                               totalSize: nat)

  /** What a consumer asked for, where in the arrivals it joined, and what its socket took. */
  datatype History = History(interests: Byte, since: nat, sent: Bytes)

  predicate QueueOk(queue: seq<SizedBuffer>) {
    forall i :: 0 <= i < |queue| ==> queue[i].Ok()
  }

  function TotalLength(queue: seq<SizedBuffer>): nat {
    if queue == [] then 0 else queue[0].len + TotalLength(queue[1..])
  }

  /** The bodies still to be framed for this consumer, oldest first. */
  function Outgoing(queue: seq<SizedBuffer>): seq<Bytes>
    requires QueueOk(queue)
  {
    if queue == [] then [] else Outgoing(queue[1..]) + [Tagged(queue[0].AsRecord())]
  }

  predicate AllWithin(rs: seq<Record>, max: nat) {
    forall i :: 0 <= i < |rs| ==> |rs[i].data| <= max
  }

  /** Nothing is lost, repeated or reordered between the arrivals and the socket. */
  ghost predicate Conserved(c: Consumer, k: History, wanted: seq<Record>)
    requires WriteOk(c.writeQueue) && QueueOk(c.queue)
  {
    k.sent + Pending(c.writeQueue) + EncodeAll(Outgoing(c.queue)) == EncodeAll(TaggedAll(wanted))
  }

  ghost predicate ConsumerOk(c: Consumer, k: History, wanted: seq<Record>, maxSize: nat) {
    && Ready(c.writeQueue) && QueueOk(c.queue)
    && c.totalSize == TotalLength(c.queue) <= maxSize
    && AllWithin(wanted, maxSize)
    && Conserved(c, k, wanted)
    // No lost wake-up.
    && (c.queue != [] || c.writeQueue.toWrite > 0 ==> c.armed)
  }

  /** What append does to an interested consumer. */
  function Push(c: Consumer, p: SizedBuffer): Consumer {
    c.(queue := [p] + c.queue, totalSize := c.totalSize + p.len, armed := true)
  }

  /** What a record does to any consumer. */
  function Given(c: Consumer, p: SizedBuffer): Consumer
    requires p.Ok()
  {
    if Interested(c.interests, p.AsRecord()) then Push(c, p) else c
  }

  lemma PushQueue(queue: seq<SizedBuffer>, p: SizedBuffer)
    requires QueueOk(queue) && p.Ok()
    ensures QueueOk([p] + queue) && TotalLength([p] + queue) == p.len + TotalLength(queue)
    ensures EncodeAll(Outgoing([p] + queue)) == EncodeAll(Outgoing(queue)) + Encode(Tagged(p.AsRecord()))
  {
    assert ([p] + queue)[1..] == queue;
    EncodeAllSnoc(Outgoing(queue), Tagged(p.AsRecord()));
  }

  lemma TaggedSnoc(rs: seq<Record>, r: Record)
    ensures EncodeAll(TaggedAll(rs + [r])) == EncodeAll(TaggedAll(rs)) + Encode(Tagged(r))
  {
    assert TaggedAll(rs + [r]) == TaggedAll(rs) + [Tagged(r)];
    EncodeAllSnoc(TaggedAll(rs), Tagged(r));
  }

  lemma PushOk(c: Consumer, k: History, wanted: seq<Record>, maxSize: nat, p: SizedBuffer)
    requires ConsumerOk(c, k, wanted, maxSize) && p.Ok() && c.totalSize + p.len <= maxSize
    ensures ConsumerOk(Push(c, p), k, wanted + [p.AsRecord()], maxSize)
  {
    PushQueue(c.queue, p);
    TaggedSnoc(wanted, p.AsRecord());
    Associate(k.sent + Pending(c.writeQueue), EncodeAll(Outgoing(c.queue)), Encode(Tagged(p.AsRecord())));
  }

  /** pop_back takes the oldest record. */
  lemma {:induction false} OutgoingOldest(queue: seq<SizedBuffer>)
    requires QueueOk(queue) && queue != []
    ensures var n := |queue| - 1;
            && Outgoing(queue) == [Tagged(queue[n].AsRecord())] + Outgoing(queue[..n])
            && TotalLength(queue) == TotalLength(queue[..n]) + queue[n].len
  {
    var n := |queue| - 1;
    if n > 0 {
      OutgoingOldest(queue[1..]);
      assert queue[1..][..n - 1] == queue[..n][1..];
      Associate([Tagged(queue[n].AsRecord())], Outgoing(queue[..n][1..]), [Tagged(queue[0].AsRecord())]);
    }
  }

  /** Framing the popped record moves it from the queue to the pending bytes. */
  function Pop(c: Consumer): Consumer
    requires QueueOk(c.queue) && c.queue != [] && c.totalSize == TotalLength(c.queue)
  {
    var n := |c.queue| - 1;
    var p := c.queue[n];
    OutgoingOldest(c.queue);
    var q1 := Append(c.writeQueue, ToBE(Narrow(p.len + 4)), 4);
    var q2 := Append(q1, ToBE(p.source), 4);
    c.(queue := c.queue[..n], totalSize := c.totalSize - p.len, writeQueue := Append(q2, p.buffer, p.len))
  }

  lemma FramePending(q: WriteQueue, p: SizedBuffer)
    requires Ready(q) && p.Ok()
    ensures var q3 := Append(Append(Append(q, ToBE(Narrow(p.len + 4)), 4), ToBE(p.source), 4), p.buffer, p.len);
            Ready(q3) && Pending(q3) == Pending(q) + Encode(Tagged(p.AsRecord()))
  {
    var l, s := ToBE(Narrow(p.len + 4)), ToBE(p.source);
    AppendReady(q, l, 4);
    AppendReady(Append(q, l, 4), s, 4);
    AppendReady(Append(Append(q, l, 4), s, 4), p.buffer, p.len);
    assert l[..4] == l && s[..4] == s;
    Associate(Pending(q), l, s);
    Associate(Pending(q), l + s, p.buffer[..p.len]);
    Associate(l, s, p.buffer[..p.len]);
  }

  lemma PopOk(c: Consumer, k: History, wanted: seq<Record>, maxSize: nat)
    requires ConsumerOk(c, k, wanted, maxSize) && c.queue != []
    ensures ConsumerOk(Pop(c), k, wanted, maxSize) && Pop(c).writeQueue.toWrite > 0
  {
    OutgoingOldest(c.queue);
    PopConserves(c, k, wanted);
  }

  lemma PopConserves(c: Consumer, k: History, wanted: seq<Record>)
    requires Ready(c.writeQueue) && QueueOk(c.queue) && c.queue != [] && c.totalSize == TotalLength(c.queue)
    requires Conserved(c, k, wanted)
    ensures Ready(Pop(c).writeQueue) && QueueOk(Pop(c).queue) && Conserved(Pop(c), k, wanted)
    ensures Pop(c).writeQueue.toWrite > 0
  {
    var n := |c.queue| - 1;
    FramePending(c.writeQueue, c.queue[n]);
    PopQueue(c.queue);
    FrameMoved(k.sent, Pending(c.writeQueue), Encode(Tagged(c.queue[n].AsRecord())), EncodeAll(Outgoing(c.queue[..n])));
  }

  /** The popped frame goes from the queue's side to the pending side. */
  lemma FrameMoved(sent: Bytes, pending: Bytes, frame: Bytes, rest: Bytes)
    ensures (sent + (pending + frame)) + rest == (sent + pending) + (frame + rest)
  {
  }

  lemma PopQueue(queue: seq<SizedBuffer>)
    requires QueueOk(queue) && queue != []
    ensures var n := |queue| - 1;
            EncodeAll(Outgoing(queue)) == Encode(Tagged(queue[n].AsRecord())) + EncodeAll(Outgoing(queue[..n]))
  {
    var n := |queue| - 1;
    var body := Tagged(queue[n].AsRecord());
    OutgoingOldest(queue);
    EncodeAllCons(body, Outgoing(queue[..n]));
  }

  // ---------------------------------------------------------------- the collector

  ghost predicate ServesOk(c: Consumer, k: History, arrivals: seq<Record>, maxSize: nat) {
    && k.since <= |arrivals| && c.interests == k.interests
    && ConsumerOk(c, k, WantedSince(k.interests, arrivals, k.since), maxSize)
  }

  /** The socket took a first part of the frames that these arrivals call for, none of them over the limit. */
  ghost predicate SentBy(k: History, arrivals: seq<Record>, maxSize: nat) {
    && k.since <= |arrivals| && AllWithin(WantedSince(k.interests, arrivals, k.since), maxSize)
    && k.sent <= EncodeAll(TaggedAll(WantedSince(k.interests, arrivals, k.since)))
  }

  /** What is known of a consumer, connected or not: it was served up to some arrival. */
  ghost predicate SentOk(k: History, arrivals: seq<Record>, maxSize: nat) {
    exists until :: 0 <= until <= |arrivals| && SentBy(k, arrivals[..until], maxSize)
  }

  lemma SentMore(k: History, arrivals: seq<Record>, maxSize: nat, r: Record)
    requires SentOk(k, arrivals, maxSize)
    ensures SentOk(k, arrivals + [r], maxSize)
  {
    var until :| 0 <= until <= |arrivals| && SentBy(k, arrivals[..until], maxSize);
    assert (arrivals + [r])[..until] == arrivals[..until];
  }

  /** A consumer whose socket takes some of the pending bytes, and may die then. */
  lemma TakenOk(c: Consumer, k: History, arrivals: seq<Record>, maxSize: nat, taken: Bytes)
    requires ServesOk(c, k, arrivals, maxSize) && taken <= Pending(c.writeQueue)
    ensures SentOk(k.(sent := k.sent + taken), arrivals, maxSize)
  {
    assert arrivals[..|arrivals|] == arrivals;
    PrefixOfSum(k.sent, taken, Pending(c.writeQueue), EncodeAll(Outgoing(c.queue)));
  }

  lemma PrefixOfSum(a: Bytes, b: Bytes, c: Bytes, d: Bytes)
    requires b <= c
    ensures a + b <= a + c + d
  {
  }

  // ---------------------------------------------------------------- who is evicted

  /** What decides over a consumer: what it asked for, and how much is queued for it. */
  datatype Load = Load(interests: Byte, size: nat)

  ghost function LoadsOf(consumers: map<int, Consumer>): map<int, Load> {
    map h | h in consumers :: Load(consumers[h].interests, consumers[h].totalSize)
  }

  predicate TooBig(l: Load, r: Record, maxSize: nat) {
    Interested(l.interests, r) && l.size + |r.data| > maxSize
  }

  function Laden(l: Load, r: Record): Load {
    if Interested(l.interests, r) then l.(size := l.size + |r.data|) else l
  }

  /** A record: it is queued for those who asked for it, and those it is too much for are gone. */
  ghost function Kept(loads: map<int, Load>, r: Record, maxSize: nat): map<int, Load> {
    map h | h in loads && !TooBig(loads[h], r, maxSize) :: Laden(loads[h], r)
  }

  ghost function KeptAll(loads: map<int, Load>, rs: seq<Record>, maxSize: nat): map<int, Load> {
    if rs == [] then loads
    else Kept(KeptAll(loads, rs[..|rs| - 1], maxSize), rs[|rs| - 1], maxSize)
  }

  lemma {:induction false} KeptAllAppend(loads: map<int, Load>, a: seq<Record>, b: seq<Record>, maxSize: nat)
    ensures KeptAll(loads, a + b, maxSize) == KeptAll(KeptAll(loads, a, maxSize), b, maxSize)
    decreases |b|
  {
    if b == [] {
      assert a + b == a;
    } else {
      var n := |b| - 1;
      var all := a + b;
      KeptAllAppend(loads, a, b[..n], maxSize);
      assert all[..|all| - 1] == a + b[..n] && all[|all| - 1] == b[n];
    }
  }

  /** Whoever stays was there before, and wants what it wanted. */
  lemma {:induction false} KeptAreThere(loads: map<int, Load>, rs: seq<Record>, maxSize: nat)
    ensures forall h :: h in KeptAll(loads, rs, maxSize) ==>
      h in loads && KeptAll(loads, rs, maxSize)[h].interests == loads[h].interests
  {
    if rs != [] {
      KeptAreThere(loads, rs[..|rs| - 1], maxSize);
    }
  }

  /** The bytes of the records a consumer asked for. */
  function WantedLength(interests: Byte, rs: seq<Record>): nat {
    if rs == [] then 0
    else
      var n := |rs| - 1;
      WantedLength(interests, rs[..n]) + if Interested(interests, rs[n]) then |rs[n].data| else 0
  }

  /** A consumer stays if and only if what it asked for fits on top of what is queued for it. */
  lemma {:induction false} StaysIffFits(loads: map<int, Load>, rs: seq<Record>, maxSize: nat, h: int)
    requires h in loads && loads[h].size <= maxSize
    ensures h in KeptAll(loads, rs, maxSize) <==> loads[h].size + WantedLength(loads[h].interests, rs) <= maxSize
    ensures h in KeptAll(loads, rs, maxSize) ==>
      KeptAll(loads, rs, maxSize)[h] ==
        Load(loads[h].interests, loads[h].size + WantedLength(loads[h].interests, rs))
  {
    if rs != [] {
      StaysIffFits(loads, rs[..|rs| - 1], maxSize, h);
    }
  }

  /** The collector as its producers and subscribers see it. */
  datatype Scene = Scene(arrivals: seq<Record>, loads: map<int, Load>, history: map<int, History>)

  /** Records arrive: exactly the consumers they are too much for are gone, and no socket took anything. */
  ghost function Arrived(s: Scene, rs: seq<Record>, maxSize: nat): Scene {
    Scene(s.arrivals + rs, KeptAll(s.loads, rs, maxSize), s.history)
  }

  lemma ArrivedOne(s: Scene, r: Record, maxSize: nat)
    ensures Arrived(s, [r], maxSize) == Scene(s.arrivals + [r], Kept(s.loads, r, maxSize), s.history)
  {
    assert [r][..|[r]| - 1] == [];
    assert KeptAll(s.loads, [], maxSize) == s.loads;
  }

  lemma ArrivedNone(s: Scene, maxSize: nat)
    ensures Arrived(s, [], maxSize) == s
  {
    assert s.arrivals + [] == s.arrivals;
  }

  lemma ArrivedTwice(s: Scene, a: seq<Record>, b: seq<Record>, maxSize: nat)
    ensures Arrived(Arrived(s, a, maxSize), b, maxSize) == Arrived(s, a + b, maxSize)
  {
    KeptAllAppend(s.loads, a, b, maxSize);
    Associate(s.arrivals, a, b);
  }

  /** Whether this record makes the consumer too big. */
  predicate Evicted(c: Consumer, p: SizedBuffer, maxSize: nat)
    requires p.Ok()
  {
    Interested(c.interests, p.AsRecord()) && c.totalSize + p.len > maxSize
  }

  /** What a record does to the consumers: those it makes too big are gone, the others are given it. */
  ghost function Spared(consumers: map<int, Consumer>, p: SizedBuffer, maxSize: nat): map<int, Consumer>
    requires p.Ok()
  {
    map h | h in consumers && !Evicted(consumers[h], p, maxSize) :: Given(consumers[h], p)
  }

  /**
   A consumer that does not ask for a record is left alone; one that does gets it behind what it has, and is
   gone if and only if that is more than the limit then.
   */
  lemma SparedMeans(consumers: map<int, Consumer>, p: SizedBuffer, maxSize: nat, h: int)
    requires p.Ok() && h in consumers && consumers[h].totalSize <= maxSize
    ensures var (c, spared) := (consumers[h], Spared(consumers, p, maxSize));
            if !Interested(c.interests, p.AsRecord()) then h in spared && spared[h] == c
            else
              && (h in spared <==> c.totalSize + p.len <= maxSize)
              && (h in spared ==>
                    && spared[h].queue == [p] + c.queue && spared[h].totalSize == c.totalSize + p.len && spared[h].armed
                    && spared[h].writeQueue == c.writeQueue && spared[h].interests == c.interests)
    ensures Spared(consumers, p, maxSize).Keys <= consumers.Keys
  {
  }

  lemma SparedKept(consumers: map<int, Consumer>, p: SizedBuffer, maxSize: nat)
    requires p.Ok()
    ensures LoadsOf(Spared(consumers, p, maxSize)) == Kept(LoadsOf(consumers), p.AsRecord(), maxSize)
  {
    var spared, loads := Spared(consumers, p, maxSize), LoadsOf(consumers);
    var a, b := LoadsOf(spared), Kept(loads, p.AsRecord(), maxSize);
    forall h ensures h in a <==> h in b {
      if h in consumers {
        assert loads[h] == Load(consumers[h].interests, consumers[h].totalSize);
      }
    }
    forall h | h in a && h in b ensures a[h] == b[h] {
      assert spared[h] == Given(consumers[h], p);
    }
    assert a.Keys == b.Keys;
  }

  /** Given to all, then taken from those it makes too big. */
  lemma OfferedSpared(consumers: map<int, Consumer>, offered: map<int, Consumer>, morose: set<int>, p: SizedBuffer,
                      maxSize: nat)
    requires p.Ok() && offered.Keys == consumers.Keys
    requires forall h :: h in offered ==> offered[h] == Given(consumers[h], p)
    requires forall h :: h in morose <==> h in consumers && Evicted(consumers[h], p, maxSize)
    ensures offered - morose == Spared(consumers, p, maxSize)
  {
    var left, spared := offered - morose, Spared(consumers, p, maxSize);
    forall h ensures h in left <==> h in spared {
      assert h in offered <==> h in consumers;
    }
    forall h | h in left ensures left[h] == spared[h] {
      assert left[h] == offered[h];
    }
    assert left.Keys == spared.Keys;
  }

  /** One arrival, seen by a consumer that is not evicted for it. */
  lemma ArrivalOk(c: Consumer, k: History, arrivals: seq<Record>, maxSize: nat, p: SizedBuffer)
    requires ServesOk(c, k, arrivals, maxSize) && p.Ok()
    requires Interested(c.interests, p.AsRecord()) ==> c.totalSize + p.len <= maxSize
    ensures ServesOk(Given(c, p), k, arrivals + [p.AsRecord()], maxSize)
  {
    WantedSnoc(c.interests, arrivals, k.since, p.AsRecord());
    if Interested(c.interests, p.AsRecord()) {
      PushOk(c, k, WantedSince(c.interests, arrivals, k.since), maxSize, p);
    }
  }

  class Collector {
    const maxSize: nat
    var consumers: map<int, Consumer>
    /** How many output handlers there ever were: each gets a name of its own. */
    var made: nat
    /** Every record ever appended, in order, and what is known of every consumer there ever was. */
    ghost var arrivals: seq<Record>
    ghost var history: map<int, History>

    ghost predicate Valid()
      reads this
    {
      AllServed(consumers, history, arrivals, maxSize) && forall h :: h in history ==> 0 <= h < made
    }

    ghost function View(): Scene
      reads this
    {
      Scene(arrivals, LoadsOf(consumers), history)
    }

    constructor (maxSize: nat)
      ensures Valid() && consumers == map[] && arrivals == [] && history == map[] && this.maxSize == maxSize
    {
      this.maxSize := maxSize;
      consumers, made, arrivals, history := map[], 0, [], map[];
    }

    /** A new output connection. */
    method AddConsumer(interests: Byte) returns (h: int)
      requires Valid()
      modifies this
      ensures Valid() && arrivals == old(arrivals) && h !in old(history)
      ensures consumers == old(consumers)[h := Consumer(interests, false, NewWriteQueue(), [], 0)]
      ensures history == old(history)[h := History(interests, |arrivals|, [])]
    {
      h := made;
      made := made + 1;
      var c, k := Consumer(interests, false, NewWriteQueue(), [], 0), History(interests, |arrivals|, []);
      JoinedOk(c, k, arrivals, maxSize);
      StillServed(consumers, history, arrivals, maxSize, h, c, k);
      consumers, history := consumers[h := c], history[h := k];
    }

    /** The destructor of an output handler. */
    method Retire(h: int)
      modifies `consumers
      ensures consumers == old(consumers) - {h} && (old(Valid()) ==> Valid())
    {
      consumers := consumers - {h};
    }

    /** A record to every interested consumer; those over the limit are disconnected afterwards. */
    method Append(data: Bytes, len: nat, source: U32)
      requires Valid() && 0 < len <= |data|
      modifies this
      ensures Valid() && View() == Arrived(old(View()), [Record(source, data[..len])], maxSize)
      ensures consumers == Spared(old(consumers), SizedBuffer(data, len, source), maxSize)
    {
      var p := SizedBuffer(data, len, source);
      var morose := Offer(p);
      ghost var offered := consumers;
      Disconnect(morose);
      OfferedSpared(old(consumers), offered, morose, p, maxSize);
      arrivals := arrivals + [p.AsRecord()];
      AppendOk(old(consumers), history, old(arrivals), maxSize, p, consumers, arrivals);
    }

    /** The first loop of append: push, arm, and note who got too big. */
    method Offer(p: SizedBuffer) returns (morose: set<int>)
      requires p.Ok()
      modifies `consumers
      ensures morose <= consumers.Keys == old(consumers.Keys)
      ensures forall h :: h in morose <==> h in old(consumers) && Evicted(old(consumers)[h], p, maxSize)
      ensures forall h :: h in consumers ==>
        consumers[h] == Given(old(consumers)[h], p)
    {
      morose := {};
      var todo := consumers.Keys;
      while todo != {}
        invariant todo <= consumers.Keys == old(consumers.Keys) && morose <= consumers.Keys
        invariant forall h :: h in todo ==> consumers[h] == old(consumers)[h]
        invariant forall h :: h in consumers && h !in todo ==>
          consumers[h] == Given(old(consumers)[h], p)
        invariant forall h ::
          h in morose <==> h in old(consumers) && h !in todo && Evicted(old(consumers)[h], p, maxSize)
        decreases todo
      {
        Inhabited(todo);
        var h :| h in todo;
        if Interested(consumers[h].interests, p.AsRecord()) {
          consumers := consumers[h := Push(consumers[h], p)];
          if consumers[h].totalSize > maxSize {
            morose := morose + {h};
          }
        }
        todo := todo - {h};
      }
    }

    /** The second loop of append: delete the handlers that got too big. */
    method Disconnect(morose: set<int>)
      modifies `consumers
      ensures consumers == old(consumers) - morose
    {
      var todo := morose;
      while todo != {}
        invariant todo <= morose
        invariant consumers == old(consumers) - (morose - todo)
        decreases todo
      {
        Inhabited(todo);
        var h :| h in todo;
        Retire(h);
        todo := todo - {h};
      }
    }

    /** output_cxn's io_cb on WRITE: drain, then frame the next record or go to sleep; a dead socket retires it. */
    method IoCallback(h: int, script: seq<Sent>) returns (alive: bool, used: nat, ghost c: Consumer, ghost sent: Bytes)
      requires Valid() && h in consumers
      modifies `consumers, `history
      ensures Valid() && ServedBy(old(consumers)[h], script, c, sent, alive, used)
      ensures consumers == if alive then old(consumers)[h := c] else old(consumers) - {h}
      ensures history == old(history)[h := old(history)[h].(sent := old(history)[h].sent + sent)]
    {
      ghost var k := history[h];
      assert ServesOk(consumers[h], history[h], arrivals, maxSize);
      var c', taken;
      c', taken, alive, used := Service(consumers[h], script, k, WantedSince(k.interests, arrivals, k.since), maxSize);
      c, sent := c', taken;
      if alive {
        consumers := consumers[h := c'];
      } else {
        Retire(h);
      }
      history := history[h := k.(sent := k.sent + sent)];
      CallbackOk(old(consumers), old(history), arrivals, maxSize, h, c, sent, alive, consumers, history);
    }
  }

  /**
   Progress: after one callback more than there are records in its queue, all with writes that succeed, a
   consumer has been sent every record it asked for since it joined, and sleeps.
   */
  method ServeAll(collector: Collector, h: int, scripts: seq<seq<Sent>>)
    requires collector.Valid() && h in collector.consumers && |scripts| > |collector.consumers[h].queue|
    requires var k := collector.history[h];
             var all := EncodeAll(TaggedAll(WantedSince(k.interests, collector.arrivals, k.since)));
             forall i :: 0 <= i < |scripts| ==> Succeeds(scripts[i], |all|)
    modifies collector`consumers, collector`history
    ensures collector.Valid() && h in collector.consumers && h in collector.history
    ensures var k := old(collector.history[h]);
            collector.history[h] ==
              k.(sent := EncodeAll(TaggedAll(WantedSince(k.interests, collector.arrivals, k.since))))
    ensures collector.consumers[h].queue == [] && !collector.consumers[h].armed
    ensures collector.consumers - {h} == old(collector.consumers) - {h}
    ensures collector.history - {h} == old(collector.history) - {h}
  {
    var n := |collector.consumers[h].queue|;
    ghost var k := collector.history[h];
    ghost var wanted := WantedSince(k.interests, collector.arrivals, k.since);
    for i := 0 to |scripts|
      invariant collector.Valid() && h in collector.consumers && h in collector.history
      invariant collector.history[h] == k.(sent := collector.history[h].sent)
      invariant collector.consumers - {h} == old(collector.consumers) - {h}
      invariant collector.history - {h} == old(collector.history) - {h}
      invariant |collector.consumers[h].queue| == Max(n, i) - i
      invariant i > n ==> collector.consumers[h].writeQueue.toWrite == 0 && !collector.consumers[h].armed
    {
      ghost var c := collector.consumers[h];
      assert ServesOk(c, collector.history[h], collector.arrivals, collector.maxSize);
      PendingWithin(c, collector.history[h], wanted, collector.maxSize);
      var alive, used, c', sent := collector.IoCallback(h, scripts[i]);
      ServedProgress(c, scripts[i], c', sent, alive, used);
    }
    assert ServesOk(collector.consumers[h], collector.history[h], collector.arrivals, collector.maxSize);
    PendingWithin(collector.consumers[h], collector.history[h], wanted, collector.maxSize);
  }

  /** Every consumer of a collector is served, and those that are gone were. */
  ghost predicate AllServed(consumers: map<int, Consumer>, history: map<int, History>, arrivals: seq<Record>,
                            maxSize: nat) {
    AllConnected(consumers, history, arrivals, maxSize) && AllSent(history, arrivals, maxSize)
  }

  ghost predicate AllConnected(consumers: map<int, Consumer>, history: map<int, History>, arrivals: seq<Record>,
                               maxSize: nat) {
    && consumers.Keys <= history.Keys
    && forall h {:trigger ServesOk(consumers[h], history[h], arrivals, maxSize)} ::
         h in consumers ==> ServesOk(consumers[h], history[h], arrivals, maxSize)
  }

  ghost predicate AllSent(history: map<int, History>, arrivals: seq<Record>, maxSize: nat) {
    forall h {:trigger SentOk(history[h], arrivals, maxSize)} ::
      h in history ==> SentOk(history[h], arrivals, maxSize)
  }

  lemma JoinedOk(c: Consumer, k: History, arrivals: seq<Record>, maxSize: nat)
    requires c == Consumer(k.interests, false, NewWriteQueue(), [], 0) && k.since == |arrivals| && k.sent == []
    ensures ServesOk(c, k, arrivals, maxSize) && SentOk(k, arrivals, maxSize)
  {
    assert arrivals[|arrivals|..] == [];
    assert EncodeAll([]) == [];
    assert ServesOk(c, k, arrivals, maxSize);
    TakenOk(c, k, arrivals, maxSize, []);
    assert k.sent + [] == k.sent;
  }

  lemma StillServed(consumers: map<int, Consumer>, history: map<int, History>, arrivals: seq<Record>, maxSize: nat,
                    h: int, c: Consumer, k: History)
    requires AllServed(consumers, history, arrivals, maxSize)
    requires ServesOk(c, k, arrivals, maxSize) && SentOk(k, arrivals, maxSize)
    ensures AllServed(consumers[h := c], history[h := k], arrivals, maxSize)
  {
  }

  lemma StillSent(consumers: map<int, Consumer>, history: map<int, History>, arrivals: seq<Record>, maxSize: nat,
                  h: int, k: History)
    requires AllServed(consumers, history, arrivals, maxSize) && SentOk(k, arrivals, maxSize)
    ensures AllServed(consumers - {h}, history[h := k], arrivals, maxSize)
  {
  }

  lemma CallbackOk(consumers: map<int, Consumer>, history: map<int, History>, arrivals: seq<Record>, maxSize: nat,
                   h: int, c: Consumer, sent: Bytes, alive: bool, consumers': map<int, Consumer>,
                   history': map<int, History>)
    requires AllServed(consumers, history, arrivals, maxSize) && h in consumers
    requires ServesOk(consumers[h], history[h], arrivals, maxSize) && sent <= Pending(consumers[h].writeQueue)
    requires var k := history[h].(sent := history[h].sent + sent);
             alive ==> ConsumerOk(c, k, WantedSince(k.interests, arrivals, k.since), maxSize) &&
                       c.interests == consumers[h].interests
    requires consumers' == if alive then consumers[h := c] else consumers - {h}
    requires history' == history[h := history[h].(sent := history[h].sent + sent)]
    ensures AllServed(consumers', history', arrivals, maxSize)
  {
    var k := history[h].(sent := history[h].sent + sent);
    TakenOk(consumers[h], history[h], arrivals, maxSize, sent);
    if alive {
      StillServed(consumers, history, arrivals, maxSize, h, c, k);
    } else {
      StillSent(consumers, history, arrivals, maxSize, h, k);
    }
  }

  lemma AppendOk(consumers: map<int, Consumer>, history: map<int, History>, arrivals: seq<Record>, maxSize: nat,
                 p: SizedBuffer, consumers': map<int, Consumer>, arrivals': seq<Record>)
    requires AllServed(consumers, history, arrivals, maxSize) && p.Ok()
    requires consumers' == Spared(consumers, p, maxSize) && arrivals' == arrivals + [p.AsRecord()]
    ensures AllServed(consumers', history, arrivals', maxSize)
    ensures Scene(arrivals', LoadsOf(consumers'), history) ==
            Arrived(Scene(arrivals, LoadsOf(consumers), history), [p.AsRecord()], maxSize)
  {
    AllArrivalOk(consumers, history, arrivals, maxSize, p);
    AllSentMore(history, arrivals, maxSize, p.AsRecord());
    SparedKept(consumers, p, maxSize);
    ArrivedOne(Scene(arrivals, LoadsOf(consumers), history), p.AsRecord(), maxSize);
  }

  /** One arrival, seen by all consumers. */
  lemma AllArrivalOk(consumers: map<int, Consumer>, history: map<int, History>, arrivals: seq<Record>, maxSize: nat,
                     p: SizedBuffer)
    requires AllConnected(consumers, history, arrivals, maxSize) && p.Ok()
    ensures AllConnected(Spared(consumers, p, maxSize), history, arrivals + [p.AsRecord()], maxSize)
  {
    var consumers' := Spared(consumers, p, maxSize);
    forall h | h in consumers' ensures ServesOk(consumers'[h], history[h], arrivals + [p.AsRecord()], maxSize) {
      ArrivalOk(consumers[h], history[h], arrivals, maxSize, p);
    }
  }

  lemma AllSentMore(history: map<int, History>, arrivals: seq<Record>, maxSize: nat, r: Record)
    requires AllSent(history, arrivals, maxSize)
    ensures AllSent(history, arrivals + [r], maxSize)
  {
    forall h | h in history ensures SentOk(history[h], arrivals + [r], maxSize) {
      SentMore(history[h], arrivals, maxSize, r);
    }
  }

  /** The socket is not dead: it took bytes, or will later. */
  predicate Takes(answer: Sent) {
    answer.WriteAgain? || answer.WriteInterrupted?
  }

  /** A consumer whose write queue was drained to `q`: an empty queue takes the oldest record, or sleeps. */
  function Serviced(c: Consumer, q: WriteQueue): Consumer
    requires QueueOk(c.queue) && c.totalSize == TotalLength(c.queue)
  {
    if q.toWrite > 0 then c.(writeQueue := q)
    else if c.queue != [] then Pop(c.(writeQueue := q))
    else c.(writeQueue := q, armed := false)
  }

  /**
   A callback of a consumer: its socket takes what the write loop wrote; it is alive exactly if the socket is not
   dead, and then its next record is framed or it goes to sleep.
   */
  ghost predicate ServedBy(c: Consumer, script: seq<Sent>, c': Consumer, sent: Bytes, alive: bool, used: nat) {
    && Ready(c.writeQueue) && QueueOk(c.queue) && c.totalSize == TotalLength(c.queue)
    && var o := Flush(c.writeQueue, script);
    && used == o.used && Written(script, used, o.count, o.queue.toWrite)
    && sent == Pending(c.writeQueue)[..o.count]
    && (alive <==> Takes(Last(script, used)))
    && (alive ==> c' == Serviced(c, o.queue))
  }

  /** One consumer's callback: drain, then frame the next record or disarm. */
  method Service(c0: Consumer, script: seq<Sent>, ghost k: History, ghost wanted: seq<Record>, ghost maxSize: nat)
      returns (c: Consumer, sent: Bytes, alive: bool, used: nat)
    requires ConsumerOk(c0, k, wanted, maxSize)
    ensures ServedBy(c0, script, c, sent, alive, used)
    ensures sent <= Pending(c0.writeQueue)
    ensures alive ==> ConsumerOk(c, k.(sent := k.sent + sent), wanted, maxSize) && c.interests == c0.interests
  {
    var q, last;
    q, sent, used, last := DrainReady(c0.writeQueue, script);
    c, alive := c0.(writeQueue := q), true;
    if last.Wrote? || last.WriteFailed? {
      alive := false;
    } else {
      ServicedOk(c0, k, wanted, maxSize, q, sent);
      if q.toWrite == 0 {
        if c.queue != [] {
          c := Pop(c);
        } else {
          c := c.(armed := false);
        }
      }
    }
  }

  /** Every write succeeds, and there are as many as `n` bytes could need. */
  predicate Succeeds(script: seq<Sent>, n: nat) {
    |script| >= n && forall i :: 0 <= i < |script| ==> Positive(script[i])
  }

  /**
   A callback whose writes succeed: everything pending is sent; then the oldest record, if there is one, is
   framed and leaves the queue, and if there is none the consumer goes to sleep.
   */
  lemma ServedProgress(c: Consumer, script: seq<Sent>, c': Consumer, sent: Bytes, alive: bool, used: nat)
    requires ServedBy(c, script, c', sent, alive, used) && Succeeds(script, c.writeQueue.toWrite)
    ensures alive && sent == Pending(c.writeQueue) && c'.interests == c.interests && Ready(c'.writeQueue)
    ensures c.queue == [] ==> c'.queue == [] && c'.writeQueue.toWrite == 0 && !c'.armed
    ensures c.queue != [] ==>
      var n := |c.queue| - 1;
      && c'.queue == c.queue[..n] && c'.armed == c.armed && c'.totalSize == c.totalSize - c.queue[n].len
      && Pending(c'.writeQueue) == Encode(Tagged(c.queue[n].AsRecord()))
  {
    var o := Flush(c.writeQueue, script);
    FlushWrites(c.writeQueue, script);
    assert |Pending(o.queue)| == c.writeQueue.toWrite - o.count;
    WrittenAll(script, used, o.count, o.queue.toWrite);
    assert Pending(o.queue) == [];
    if c.queue != [] {
      var oldest := c.queue[|c.queue| - 1];
      FramePending(o.queue, oldest);
      assert [] + Encode(Tagged(oldest.AsRecord())) == Encode(Tagged(oldest.AsRecord()));
    }
  }

  /** What is pending is part of what the records wanted come to. */
  lemma PendingWithin(c: Consumer, k: History, wanted: seq<Record>, maxSize: nat)
    requires ConsumerOk(c, k, wanted, maxSize)
    ensures c.writeQueue.toWrite <= |EncodeAll(TaggedAll(wanted))|
    ensures c.queue == [] && c.writeQueue.toWrite == 0 ==> k.sent == EncodeAll(TaggedAll(wanted))
  {
    var all := k.sent + Pending(c.writeQueue) + EncodeAll(Outgoing(c.queue));
    assert |all| == |k.sent| + |Pending(c.writeQueue)| + |EncodeAll(Outgoing(c.queue))|;
    if c.queue == [] && c.writeQueue.toWrite == 0 {
      assert Pending(c.writeQueue) == [] && EncodeAll([]) == [];
    }
  }

  lemma ServicedOk(c: Consumer, k: History, wanted: seq<Record>, maxSize: nat, q: WriteQueue, sent: Bytes)
    requires ConsumerOk(c, k, wanted, maxSize) && Ready(q) && Pending(c.writeQueue) == sent + Pending(q)
    ensures ConsumerOk(Serviced(c, q), k.(sent := k.sent + sent), wanted, maxSize)
  {
    Associate(k.sent, sent, Pending(q));
    if q.toWrite == 0 && c.queue != [] {
      PopOk(c.(writeQueue := q), k.(sent := k.sent + sent), wanted, maxSize);
    }
  }
}
