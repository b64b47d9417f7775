/** The logging system as a whole: producers, the log server and the archive, step by step. */
module LogSystems {
  import opened Bytes
  import opened Streams
  import opened Wire
  import opened Loggers
  import opened Collectors
  import opened InputCxns
  import opened LogServers
  import opened Archives
  import opened EndToEnd

  /** A call of g_log. */
  datatype Event =
    | Status(time: Time, handle: U32, update: U32, remote: Bytes, local: Bytes, text: Bytes)
    | Message(time: Time, id: U32, isSender: bool, msg: Bytes)
    | Text(kind: Byte, time: Time, parts: seq<Bytes>)
  {
    /** What the callers of g_log see to, and that the record's length fits its prefix. */
    predicate Ok() {
      && match this {
           case Status(_, _, _, remote, local, text) => |remote| == |local| == ADDRESS_SIZE && |text| < U32_RANGE
           case Message(_, _, _, msg) => |msg| >= MESSAGE_HEADER
           case Text(kind, _, parts) => parts != [] && kind != 0
         }
      && |Body()| < U32_RANGE
    }

    function Body(): Bytes {
      match this
      case Status(time, handle, update, remote, local, text) => StatusBody(time, handle, update, remote, local, text)
      case Message(time, id, isSender, msg) => MessageBody(time, id, isSender, msg)
      case Text(kind, time, parts) => if parts == [] then [] else TextBody(kind, time, parts)
    }
  }

  // ---------------------------------------------------------------- the links between the processes

  /** A producer and the handler at the other end of its connection, which has got a first part of what was sent. */
  ghost predicate Linked(l: Logger, h: InputHandler)
    reads l, h
  {
    l.Valid() && Fits(l.events) && h.received <= l.sent
  }

  ghost predicate AllLinked(loggers: seq<Logger>, inputs: seq<InputHandler>)
    reads loggers, inputs
  {
    && |loggers| == |inputs|
    && (forall i, j :: 0 <= i < j < |loggers| ==> loggers[i] != loggers[j] && inputs[i] != inputs[j])
    && forall i {:trigger Linked(loggers[i], inputs[i])} :: 0 <= i < |loggers| ==> Linked(loggers[i], inputs[i])
  }

  lemma LinkedSnoc(loggers: seq<Logger>, inputs: seq<InputHandler>, l: Logger, h: InputHandler, loggers': seq<Logger>,
                   inputs': seq<InputHandler>)
    requires AllLinked(loggers, inputs) && l !in loggers && h !in inputs && Linked(l, h)
    requires loggers' == loggers + [l] && inputs' == inputs + [h]
    ensures AllLinked(loggers', inputs')
  {
    forall i | 0 <= i < |loggers| + 1 ensures Linked(loggers'[i], inputs'[i]) {
      assert i < |loggers| ==> Linked(loggers[i], inputs[i]);
    }
  }

  /** The archive got a first part of what was sent to its subscription, which asked for everything. */
  ghost predicate Subscribed(history: map<int, History>, subscription: int, received: Bytes) {
    && subscription in history && history[subscription].interests == ALL_INTERESTS
    && received <= history[subscription].sent
  }

  /** The earlier sessions are stretches of the arrivals, one behind the other, the last one before `next`. */
  ghost predicate Sessions(parts: seq<seq<Bytes>>, since: seq<nat>, arrivals: seq<Record>, next: nat) {
    && Stretches(parts, since, arrivals)
    && (forall a, b :: 0 <= a < b < |parts| ==> since[a] + |parts[a]| <= since[b])
    && forall a :: 0 <= a < |parts| ==> since[a] + |parts[a]| <= next
  }

  lemma SessionsLater(parts: seq<seq<Bytes>>, since: seq<nat>, arrivals: seq<Record>, next: nat, arrivals': seq<Record>)
    requires Sessions(parts, since, arrivals, next) && arrivals <= arrivals'
    ensures Sessions(parts, since, arrivals', next)
  {
    StretchesSurvive(parts, parts, since, arrivals, arrivals');
  }

  /** One more session, and then a restart that trims them all. */
  lemma SessionsNext(parts: seq<seq<Bytes>>, since: seq<nat>, arrivals: seq<Record>, next: nat, printed: seq<Bytes>,
                     left: seq<seq<Bytes>>)
    requires Sessions(parts, since, arrivals, next) && Stretch(printed, next, arrivals)
    requires TrimmedTo(left, parts + [printed])
    ensures Sessions(left, since + [next], arrivals, |arrivals|)
  {
    assert Stretches(parts + [printed], since + [next], arrivals);
    StretchesSurvive(left, parts + [printed], since + [next], arrivals, arrivals);
  }

  // ---------------------------------------------------------------- where the frames on disk come from

  function Range(from: nat, n: nat): (ps: seq<nat>)
    ensures |ps| == n && forall i :: 0 <= i < n ==> ps[i] == from + i
  {
    seq(n, i requires 0 <= i < n => from + i)
  }

  /** The positions among the arrivals of all the frames of the sessions. */
  ghost function Positions(parts: seq<seq<Bytes>>, since: seq<nat>): seq<nat>
    requires |since| == |parts|
  {
    if parts == [] then []
    else
      var n := |parts| - 1;
      Positions(parts[..n], since[..n]) + Range(since[n], |parts[n]|)
  }

  /** Frames found among the arrivals at increasing positions below `next`: none twice, none out of order. */
  ghost predicate Found(frames: seq<Bytes>, ps: seq<nat>, arrivals: seq<Record>, next: nat) {
    && |ps| == |frames| && next <= |arrivals|
    && (forall i, j :: 0 <= i < j < |ps| ==> ps[i] < ps[j])
    && forall i :: 0 <= i < |ps| ==>
         && ps[i] < next && |frames[i]| >= 4
         && Number(frames[i][..4]) == arrivals[ps[i]].source && frames[i][4..] == arrivals[ps[i]].data
  }

  lemma FoundMore(frames: seq<Bytes>, ps: seq<nat>, arrivals: seq<Record>, next: nat, part: seq<Bytes>, since: nat)
    requires Found(frames, ps, arrivals, next) && next <= since && Stretch(part, since, arrivals)
    ensures Found(frames + part, ps + Range(since, |part|), arrivals, since + |part|)
  {
    forall i | 0 <= i < |part|
      ensures |part[i]| >= 4 && Number(part[i][..4]) == arrivals[since + i].source
      ensures part[i][4..] == arrivals[since + i].data
    {
      assert arrivals[since..since + |part|][i] == arrivals[since + i];
      TaggedReadBack(arrivals[since + i]);
    }
  }

  lemma {:induction false} SessionsFound(parts: seq<seq<Bytes>>, since: seq<nat>, arrivals: seq<Record>, next: nat)
    requires Sessions(parts, since, arrivals, next) && next <= |arrivals|
    ensures Found(Join(parts), Positions(parts, since), arrivals, next)
    decreases |parts|
  {
    if parts != [] {
      var n := |parts| - 1;
      assert Sessions(parts[..n], since[..n], arrivals, since[n]) by {
        assert Stretches(parts[..n], since[..n], arrivals);
      }
      SessionsFound(parts[..n], since[..n], arrivals, since[n]);
      FoundMore(Join(parts[..n]), Positions(parts[..n], since[..n]), arrivals, since[n], parts[n], since[n]);
    }
  }

  /** g_log: one more event. */
  method LogOne(l: Logger, e: Event)
    requires l.Valid() && e.Ok() && Fits(l.events)
    modifies l
    ensures l.Valid() && l.sent == old(l.sent) && l.events == old(l.events) + [e.Body()] && Fits(l.events)
  {
    match e {
      case Status(time, handle, update, remote, local, text) =>
        l.LogStatus(time, handle, update, remote, local, text);
      case Message(time, id, isSender, msg) =>
        l.LogMessage(time, id, isSender, msg);
      case Text(kind, time, parts) =>
        l.LogText(kind, time, parts);
    }
  }

  lemma {:induction false} WithinSent(received: Bytes, script: seq<Recv>, used: nat, sent: Bytes)
    requires used <= |script| && received + DataOf(script) <= sent
    ensures received + DataOf(script[..used]) <= sent
  {
    DataOfAppend(script[..used], script[used..]);
    assert script[..used] + script[used..] == script;
    FirstOfSum(received, DataOf(script[..used]), DataOf(script[used..]), sent);
  }

  lemma FirstOfSum(a: Bytes, b: Bytes, c: Bytes, sent: Bytes)
    requires a + (b + c) <= sent
    ensures a + b <= sent
  {
  }

  /** A producer's write loop, seen from outside. */
  method WriteOne(l: Logger, script: seq<Sent>) returns (used: nat)
    requires l.Valid() && l.connected
    modifies l
    ensures l.Valid() && l.events == old(l.events) && old(l.sent) <= l.sent
    ensures Written(script, used, |l.sent| - |old(l.sent)|, l.out.toWrite)
    ensures l.connected <==> !Last(script, used).WriteFailed?
  {
    used := l.IoCallback(script);
  }

  /** A turn of the archive, seen from outside. */
  method TurnOne(v: Verbatim, r: Recv, prerotate: bool)
    requires v.Valid() && v.running && (r.Data? ==> 0 < |r.bytes| <= STAGING)
    modifies v
    ensures v.Valid() && v.earlier == old(v.earlier) && v.received == old(v.received) + Fed(old(v.readQueue), r)
    ensures (v.running <==> GoesOn(old(v.readQueue), r)) && v.readQueue.staged == Unread(old(v.readQueue), r)
    ensures v.rotated == if v.running && prerotate then old(v.rotated) + [old(v.file)] else old(v.rotated)
    ensures Printed(old(v.printed), if v.running && prerotate then [] else old(v.file), v.printed, v.file)
  {
    v.Turn(r, prerotate);
  }

  /** A crash with a right repair, seen from outside. */
  method RestartOne(v: Verbatim, kept: nat, kernel: seq<Header>, junk: seq<Word>)
    requires v.Valid() && kept <= |v.file| && Repairs(v.file[..kept], kernel, junk)
    modifies v
    ensures v.Valid() && v.running && v.received == [] && v.rotated == old(v.rotated)
    ensures v.file == Repaired(old(v.file)[..kept]) && TrimmedTo(v.earlier, old(v.earlier) + [old(v.printed)])
  {
    ghost var right := v.CrashAndRestart(kept, kernel, junk);
  }

  lemma ProducersLinked(s: LogSystem)
    requires s.Valid()
    ensures Producers(s.server, s.loggers)
  {
    forall i | 0 <= i < |s.loggers|
      ensures s.loggers[i].Valid() && Fits(s.loggers[i].handed) && s.server.inputs[i].received <= s.loggers[i].sent
    {
      assert Linked(s.loggers[i], s.server.inputs[i]);
    }
  }

  /** In every state the current session is a stretch of the arrivals, too. */
  lemma ArchiveStands(s: LogSystem)
    requires s.Valid()
    ensures Stretch(s.archive.printed, s.server.collector.history[s.subscription].since, s.server.collector.arrivals)
  {
    ProducersLinked(s);
    ArchiveFollowsArrivals(s.server, s.loggers, s.subscription, s.archive);
  }

  class LogSystem {
    const server: LogServer
    const archive: Verbatim
    var loggers: seq<Logger>
    /** The archive's connection to the server. */
    var subscription: int
    /** Where the archive's earlier sessions joined. */
    ghost var joined: seq<nat>

    ghost predicate Valid()
      reads this, server, server.collector, server.inputs, loggers, archive
    {
      && server.Valid() && server.collector.maxSize + 4 < U32_RANGE
      && AllLinked(loggers, server.inputs)
      && ArchiveOk()
    }

    ghost predicate ArchiveOk()
      reads this, server, server.collector, archive
    {
      && archive.Valid() && Subscribed(server.collector.history, subscription, archive.received)
      && Sessions(archive.earlier, joined, server.collector.arrivals, server.collector.history[subscription].since)
    }

    constructor (page: nat, maxSize: nat)
      requires page > 0 && maxSize + 4 < U32_RANGE
      ensures Valid() && loggers == [] && server.collector.arrivals == [] && archive.file == []
    {
      server := new LogServer(page, maxSize);
      archive := new Verbatim(page);
      loggers, joined := [], [];
      new;
      subscription := server.AcceptOutput(ALL_INTERESTS);
    }

    // -------------------------------------------------------------- the steps

    /** A process starts, connects to the server and is accepted. */
    method NewProducer(page: nat, clock: seq<U32>)
      requires Valid() && page > 0 && exists i :: 0 <= i < |clock| && clock[i] !in server.taken
      modifies this`loggers, server
      ensures Valid() && |loggers| == |old(loggers)| + 1 && old(loggers) < loggers
    {
      var l, h := Connect(page, clock);
      loggers := loggers + [l];
      LinksKept();
      LinkedSnoc(old(loggers), old(server.inputs), l, h, loggers, server.inputs);
      ArchiveKept();
    }

    method Connect(page: nat, clock: seq<U32>) returns (l: Logger, h: InputHandler)
      requires server.Valid() && page > 0 && exists i :: 0 <= i < |clock| && clock[i] !in server.taken
      modifies server
      ensures server.Valid() && server.inputs == old(server.inputs) + [h]
      ensures fresh(l) && fresh(h) && Linked(l, h)
    {
      l := new Logger(page, true);
      h := server.AcceptInput(clock);
    }

    twostate lemma ArchiveKept()
      requires old(ArchiveOk()) && unchanged(archive) && unchanged(server.collector)
      requires subscription == old(subscription) && joined == old(joined)
      ensures ArchiveOk()
    {
    }

    /** What does not touch producers and handlers keeps them linked. */
    twostate lemma LinksKept()
      requires old(AllLinked(loggers, server.inputs))
      requires forall l: Logger :: l in old(loggers) ==> unchanged(l)
      requires forall h: InputHandler :: h in old(server.inputs) ==> unchanged(h)
      ensures AllLinked(old(loggers), old(server.inputs))
    {
      forall j | 0 <= j < |old(loggers)| ensures Linked(old(loggers)[j], old(server.inputs)[j]) {
        assert old(Linked(loggers[j], server.inputs[j]));
        assert old(loggers)[j] in old(loggers) && old(server.inputs)[j] in old(server.inputs);
      }
    }

    /** A producer calls g_log. */
    method Log(i: nat, e: Event)
      requires Valid() && i < |loggers| && e.Ok()
      modifies loggers[i]
      ensures Valid() && loggers[i].events == old(loggers[i].events) + [e.Body()]
    {
      assert Linked(loggers[i], server.inputs[i]);
      LogOne(loggers[i], e);
      Relinked(i);
      ArchiveKept();
    }

    /** A producer's socket is writable. */
    method Write(i: nat, script: seq<Sent>) returns (used: nat)
      requires Valid() && i < |loggers| && loggers[i].connected
      modifies loggers[i]
      ensures Valid() && loggers[i].events == old(loggers[i].events) && old(loggers[i].sent) <= loggers[i].sent
      ensures Written(script, used, |loggers[i].sent| - |old(loggers[i].sent)|, loggers[i].out.toWrite)
      ensures loggers[i].connected <==> !Last(script, used).WriteFailed?
    {
      assert Linked(loggers[i], server.inputs[i]);
      used := WriteOne(loggers[i], script);
      Relinked(i);
      ArchiveKept();
    }

    /** A producer's bytes arrive at the server, as far as they were sent. */
    method Receive(i: nat, script: seq<Recv>) returns (ghost used: nat)
      requires Valid() && i < |loggers| && server.inputs[i].alive && ScriptOk(script)
      requires server.inputs[i].received + DataOf(script) <= loggers[i].sent
      modifies server.inputs[i], server.collector
      ensures Valid() && used <= |script|
      ensures server.inputs[i].received == old(server.inputs[i].received) + DataOf(script[..used])
      ensures HandedOver(server.inputs[i].id, old(server.inputs[i].records), old(server.collector.View()),
                         server.inputs[i].records, server.collector.View(), server.collector.maxSize)
    {
      assert Linked(loggers[i], server.inputs[i]);
      used := server.Receive(i, script);
      WithinSent(old(server.inputs[i].received), script, used, loggers[i].sent);
      Relinked(i);
      SessionsLater(archive.earlier, joined, old(server.collector.arrivals),
                    server.collector.history[subscription].since, server.collector.arrivals);
    }

    /** Somebody else subscribes. */
    method Subscribe(interests: Byte) returns (h: int)
      requires Valid()
      modifies server.collector
      ensures Valid() && h !in old(server.collector.history)
      ensures server.collector.history ==
              old(server.collector.history)[h := History(interests, |server.collector.arrivals|, [])]
    {
      h := server.AcceptOutput(interests);
      LinksKept();
    }

    /** A subscriber's socket is writable, or dead. */
    method Send(h: int, script: seq<Sent>) returns (alive: bool, used: nat, ghost c: Consumer, ghost sent: Bytes)
      requires Valid() && h in server.collector.consumers
      modifies server.collector
      ensures Valid() && ServedBy(old(server.collector.consumers)[h], script, c, sent, alive, used)
      ensures server.collector.consumers ==
              if alive then old(server.collector.consumers)[h := c] else old(server.collector.consumers) - {h}
      ensures h in server.collector.history && server.collector.history - {h} == old(server.collector.history) - {h}
    {
      alive, used, c, sent := server.Send(h, script);
      LinksKept();
    }

    /** A turn of the archive's loop, on bytes of its subscription, as far as they were sent. */
    method ArchiveTurn(r: Recv, prerotate: bool)
      requires Valid() && archive.running && (r.Data? ==> 0 < |r.bytes| <= STAGING)
      requires archive.received + Fed(archive.readQueue, r) <= server.collector.history[subscription].sent
      modifies archive
      ensures Valid() && archive.received == old(archive.received) + Fed(old(archive.readQueue), r)
      ensures archive.running <==> GoesOn(old(archive.readQueue), r)
      ensures archive.readQueue.staged == Unread(old(archive.readQueue), r)
      ensures archive.rotated ==
              if archive.running && prerotate then old(archive.rotated) + [old(archive.file)] else old(archive.rotated)
      ensures Printed(old(archive.printed), if archive.running && prerotate then [] else old(archive.file),
                      archive.printed, archive.file)
    {
      TurnOne(archive, r, prerotate);
      LinksKept();
    }

    /**
     The archive crashes, is repaired and connects again: what is left of the session it was in becomes an
     earlier one, and the new one joins behind everything that has arrived.
     */
    method Restart(kept: nat, kernel: seq<Header>, junk: seq<Word>)
      requires Valid() && kept <= |archive.file| && Repairs(archive.file[..kept], kernel, junk)
      modifies archive, this`subscription, this`joined, server.collector
      ensures Valid() && archive.running && archive.received == []
      ensures archive.file == Repaired(old(archive.file)[..kept]) && archive.rotated == old(archive.rotated)
      ensures server.collector.arrivals == old(server.collector.arrivals)
    {
      Crash(kept, kernel, junk);
      Resubscribe();
    }

    method Crash(kept: nat, kernel: seq<Header>, junk: seq<Word>)
      requires Valid() && kept <= |archive.file| && Repairs(archive.file[..kept], kernel, junk)
      modifies archive, this`joined
      ensures server.Valid() && AllLinked(loggers, server.inputs) && archive.Valid()
      ensures Sessions(archive.earlier, joined, server.collector.arrivals, |server.collector.arrivals|)
      ensures archive.running && archive.received == [] && archive.rotated == old(archive.rotated)
      ensures archive.file == Repaired(old(archive.file)[..kept])
    {
      ArchiveStands(this);
      ghost var since, printed := server.collector.history[subscription].since, archive.printed;
      RestartOne(archive, kept, kernel, junk);
      SessionsNext(old(archive.earlier), joined, server.collector.arrivals, since, printed, archive.earlier);
      joined := joined + [since];
      LinksKept();
    }

    method Resubscribe()
      requires server.Valid() && server.collector.maxSize + 4 < U32_RANGE
      requires AllLinked(loggers, server.inputs) && archive.Valid() && archive.received == []
      requires Sessions(archive.earlier, joined, server.collector.arrivals, |server.collector.arrivals|)
      modifies `subscription, server.collector
      ensures Valid() && server.collector.arrivals == old(server.collector.arrivals)
    {
      subscription := server.AcceptOutput(ALL_INTERESTS);
      LinksKept();
    }

    /** One producer has moved on. */
    twostate lemma Relinked(i: nat)
      requires i < |loggers| && loggers == old(loggers) && server.inputs == old(server.inputs)
      requires old(AllLinked(loggers, server.inputs)) && Linked(loggers[i], server.inputs[i])
      requires forall l: Logger :: l in loggers && l != loggers[i] ==> unchanged(l)
      requires forall h: InputHandler :: h in server.inputs && h != server.inputs[i] ==> unchanged(h)
      ensures AllLinked(loggers, server.inputs)
    {
      forall j | 0 <= j < |loggers| ensures Linked(loggers[j], server.inputs[j]) {
        if j != i {
          assert old(Linked(loggers[j], server.inputs[j]));
          assert loggers[j] in loggers && loggers[j] != loggers[i];
          assert server.inputs[j] in server.inputs && server.inputs[j] != server.inputs[i];
        }
      }
    }
  }

  /** The sessions of the archive, and where they joined: the earlier ones and the one it is in. */
  ghost function AllSessions(s: LogSystem): seq<seq<Bytes>>
    reads s, s.archive
  {
    s.archive.earlier + [s.archive.printed]
  }

  ghost function AllJoined(s: LogSystem): seq<nat>
    requires s.Valid()
    reads s, s.server, s.server.collector, s.server.inputs, s.loggers, s.archive
  {
    s.joined + [s.server.collector.history[s.subscription].since]
  }

  /** In every state the sessions are stretches of the arrivals, one behind the other. */
  lemma SessionsStand(s: LogSystem)
    requires s.Valid()
    ensures Sessions(AllSessions(s), AllJoined(s), s.server.collector.arrivals, |s.server.collector.arrivals|)
  {
    ArchiveStands(s);
    var c := s.server.collector;
    SessionsNext(s.archive.earlier, s.joined, c.arrivals, c.history[s.subscription].since, s.archive.printed,
                 AllSessions(s));
  }

  /**
   The theorem, of every state that any sequence of steps leads to: the log files, one after the other, are whole
   frames, every one of them is a record that arrived, behind its source id, and they stand in the order of arrival
   without repetition, over all restarts; and what arrived from each source is a first part of its producer's log.
   */
  lemma FilesAreArrivals(s: LogSystem, i: nat)
    requires s.Valid() && i < |s.loggers|
    ensures Flatten(s.archive.rotated) + s.archive.file == EncodeAll(Join(AllSessions(s)))
    ensures Found(Join(AllSessions(s)), Positions(AllSessions(s), AllJoined(s)), s.server.collector.arrivals,
                  |s.server.collector.arrivals|)
    ensures FromSource(s.server.collector.arrivals, s.server.inputs[i].id) <= s.loggers[i].events
  {
    SessionsStand(s);
    SessionsFound(AllSessions(s), AllJoined(s), s.server.collector.arrivals, |s.server.collector.arrivals|);
    ProducersLinked(s);
    FilesAreTheLog(s.server, s.loggers, s.subscription, s.archive, s.joined);
    ArrivalsFollowProducer(s.server, s.loggers, i, |s.server.collector.arrivals|);
    assert s.server.collector.arrivals[..|s.server.collector.arrivals|] == s.server.collector.arrivals;
  }

  /** Of one producer, every session holds its next events behind those that arrived before the session joined. */
  lemma SessionsFollowProducers(s: LogSystem, k: nat, i: nat)
    requires s.Valid() && i < |s.loggers| && k < |AllSessions(s)|
    ensures |AllJoined(s)| == |AllSessions(s)|
    ensures Stretch(AllSessions(s)[k], AllJoined(s)[k], s.server.collector.arrivals)
    ensures OneSource(s.server.collector.arrivals, AllJoined(s)[k], |AllSessions(s)[k]|, s.server.inputs[i].id,
                      s.loggers[i].events)
  {
    SessionsStand(s);
    ProducersLinked(s);
    StretchFollowsProducer(s.server, s.loggers, i, AllJoined(s)[k], |AllSessions(s)[k]|);
  }

  // ---------------------------------------------------------------- nothing is lost

  /** A connected producer with nothing stored and nothing pending has sent everything it logged. */
  lemma ProducerFlushed(l: Logger)
    requires l.Valid() && l.connected && l.cursor == 0 && l.out.toWrite == 0
    ensures l.handed == l.events && l.sent == EncodeAll(l.events)
  {
    NoFrames(l.stored);
    assert l.store[..0] == [];
    assert l.handed + [] == l.handed;
    assert Pending(l.out) == [];
  }

  /** A handler that got all of it has framed every event. */
  lemma SourceComplete(l: Logger, h: InputHandler)
    requires l.Valid() && h.Valid() && Fits(l.events) && l.connected && l.cursor == 0 && l.out.toWrite == 0
    requires h.received == l.sent
    ensures h.records == l.events
  {
    ProducerFlushed(l);
    SourceIsLogged(l, h);
    WholeStream(l.events);
  }

  lemma WholeStream(bodies: seq<Bytes>)
    requires Fits(bodies)
    ensures Frames(EncodeAll(bodies)) == bodies
  {
    DecodeEncode(bodies, []);
    NoWholeFrame([]);
    assert EncodeAll(bodies) + [] == EncodeAll(bodies) && bodies + [] == bodies;
  }

  /** A subscriber of everything with nothing queued and nothing pending was sent every arrival since it joined. */
  lemma SubscriberServed(c: Consumer, k: History, arrivals: seq<Record>, maxSize: nat)
    requires ServesOk(c, k, arrivals, maxSize) && c.queue == [] && c.writeQueue.toWrite == 0
    requires k.interests == ALL_INTERESTS && maxSize + 4 < U32_RANGE
    requires forall j :: 0 <= j < |arrivals| ==> arrivals[j].data != [] && arrivals[j].data[0] != 0
    ensures k.sent == EncodeAll(TaggedAll(arrivals[k.since..])) && Fits(TaggedAll(arrivals[k.since..]))
    ensures NoneEmpty(TaggedAll(arrivals[k.since..]))
  {
    var rs := arrivals[k.since..];
    AllWanted(rs);
    PendingWithin(c, k, rs, maxSize);
  }

  /** A running archive with nothing staged that got whole frames has printed them. */
  lemma ArchivePrinted(v: Verbatim, bodies: seq<Bytes>)
    requires v.Valid() && v.running && v.readQueue.staged == []
    requires v.received == EncodeAll(bodies) && Fits(bodies) && NoneEmpty(bodies)
    ensures v.printed == bodies
  {
    WholeStream(bodies);
    PrintedAll(v);
  }

  /**
   When nothing is under way any more, nothing is missing: with the queues of a producer, of the archive's
   subscription and of the archive empty and the sockets delivered, all the producer logged has arrived, and
   the session holds every arrival since it joined.
   */
  lemma QuietIsComplete(s: LogSystem, i: nat)
    requires s.Valid() && i < |s.loggers|
    requires s.loggers[i].connected && s.loggers[i].cursor == 0 && s.loggers[i].out.toWrite == 0
    requires s.server.inputs[i].received == s.loggers[i].sent
    requires s.subscription in s.server.collector.consumers
    requires s.server.collector.consumers[s.subscription].queue == []
    requires s.server.collector.consumers[s.subscription].writeQueue.toWrite == 0
    requires s.archive.received == s.server.collector.history[s.subscription].sent
    requires s.archive.running && s.archive.readQueue.staged == []
    ensures FromSource(s.server.collector.arrivals, s.server.inputs[i].id) == s.loggers[i].events
    ensures var since := s.server.collector.history[s.subscription].since;
            && since <= |s.server.collector.arrivals|
            && s.archive.printed == TaggedAll(s.server.collector.arrivals[since..])
  {
    assert Linked(s.loggers[i], s.server.inputs[i]);
    assert InputOk(s.server.inputs[i], s.server.collector.arrivals, s.server.taken);
    SourceComplete(s.loggers[i], s.server.inputs[i]);
    ArchiveComplete(s);
  }

  lemma ArchiveComplete(s: LogSystem)
    requires s.Valid() && s.subscription in s.server.collector.consumers
    requires s.server.collector.consumers[s.subscription].queue == []
    requires s.server.collector.consumers[s.subscription].writeQueue.toWrite == 0
    requires s.archive.received == s.server.collector.history[s.subscription].sent
    requires s.archive.running && s.archive.readQueue.staged == []
    ensures var since := s.server.collector.history[s.subscription].since;
            && since <= |s.server.collector.arrivals|
            && s.archive.printed == TaggedAll(s.server.collector.arrivals[since..])
  {
    var c, h := s.server.collector, s.subscription;
    ProducersLinked(s);
    ArrivalsAreTyped(s.server, s.loggers);
    assert ServesOk(c.consumers[h], c.history[h], c.arrivals, c.maxSize);
    SubscriberServed(c.consumers[h], c.history[h], c.arrivals, c.maxSize);
    ArchivePrinted(s.archive, TaggedAll(c.arrivals[c.history[h].since..]));
  }
}
