/** From the producers' g_log calls to the bytes of the archive. */
module EndToEnd {
  import opened Bytes
  import opened Wire
  import opened Loggers
  import opened Collectors
  import opened InputCxns
  import opened LogServers
  import opened Archives

  /** An arrival shows up among the records of its source. */
  lemma {:induction false} ArrivalIsFromItsSource(rs: seq<Record>, k: nat)
    requires k < |rs|
    ensures rs[k].data in FromSource(rs, rs[k].source)
    decreases |rs|
  {
    var n := |rs| - 1;
    var id := rs[k].source;
    if k < n {
      ArrivalIsFromItsSource(rs[..n], k);
      assert rs[..n][k] == rs[k];
    } else {
      var all := FromSource(rs, id);
      assert all == FromSource(rs[..n], id) + [rs[n].data];
      assert all[|all| - 1] == rs[n].data;
    }
  }

  /** A subscriber of everything wants every record with a type. */
  lemma {:induction false} AllWanted(rs: seq<Record>)
    requires forall k :: 0 <= k < |rs| ==> rs[k].data != [] && rs[k].data[0] != 0
    ensures Wanted(ALL_INTERESTS, rs) == rs
  {
    if rs != [] {
      var n := |rs| - 1;
      AllWanted(rs[..n]);
      AllTakesEverything(rs[n]);
      assert rs == rs[..n] + [rs[n]];
    }
  }

  /**
   What one handler gave the collector is a prefix of what its producer logged, in call order, whether
   the producer is still connected or not.
   */
  lemma SourceIsLogged(l: Logger, h: InputHandler)
    requires l.Valid() && h.Valid()
    requires Fits(l.handed) && h.received <= l.sent
    ensures h.records == Frames(h.received) && h.records <= l.handed <= l.events && Typed(h.records)
  {
    PrefixFrames(h.received, l.handed);
    Delivered(h.readQueue, h.inBody, h.announced, h.records, h.received);
    assert NoneEmpty(Frames(h.received)) by {
      assert forall i :: 0 <= i < |Frames(h.received)| ==> Frames(h.received)[i] == l.handed[i];
    }
  }

  /** Producers, one per input handler ever made, over stream sockets that deliver a prefix of what was sent. */
  ghost predicate Producers(server: LogServer, loggers: seq<Logger>)
    reads server, server.inputs, loggers
  {
    && |loggers| == |server.inputs|
    && forall i :: 0 <= i < |loggers| ==>
         loggers[i].Valid() && Fits(loggers[i].handed) && server.inputs[i].received <= loggers[i].sent
  }

  lemma ArrivalsAreTyped(server: LogServer, loggers: seq<Logger>)
    requires server.Valid() && Producers(server, loggers)
    ensures forall k :: 0 <= k < |server.collector.arrivals| ==>
      server.collector.arrivals[k].data != [] && server.collector.arrivals[k].data[0] != 0
  {
    var rs := server.collector.arrivals;
    forall k | 0 <= k < |rs|
      ensures rs[k].data != [] && rs[k].data[0] != 0
    {
      assert rs[k].source in server.taken;
      var i :| 0 <= i < |server.inputs| && server.inputs[i].id == rs[k].source;
      assert InputOk(server.inputs[i], rs, server.taken);
      SourceIsLogged(loggers[i], server.inputs[i]);
      ArrivalIsFromItsSource(rs, k);
    }
  }

  /** Of one source, any stretch of the arrivals from the start holds a prefix of what its producer logged. */
  lemma ArrivalsFollowProducer(server: LogServer, loggers: seq<Logger>, i: nat, n: nat)
    requires server.Valid() && Producers(server, loggers)
    requires i < |loggers| && n <= |server.collector.arrivals|
    ensures FromSource(server.collector.arrivals[..n], server.inputs[i].id) <= loggers[i].events
  {
    assert InputOk(server.inputs[i], server.collector.arrivals, server.taken);
    SourceIsLogged(loggers[i], server.inputs[i]);
    FromSourcePrefix(server.collector.arrivals, n, server.inputs[i].id);
  }

  /**
   The archive of an `all` subscriber that joined when `since` records had arrived is, frame for frame, the
   next records in arrival order, each behind its source id, whether it is still connected or was evicted.
   */
  lemma ArchiveFollowsArrivals(server: LogServer, loggers: seq<Logger>, h: int, v: Verbatim)
    requires server.Valid() && Producers(server, loggers) && v.Valid()
    requires server.collector.maxSize + 4 < U32_RANGE
    requires h in server.collector.history && server.collector.history[h].interests == ALL_INTERESTS
    requires v.received <= server.collector.history[h].sent
    ensures Stretch(v.printed, server.collector.history[h].since, server.collector.arrivals)
  {
    ArrivalsAreTyped(server, loggers);
    ArchivedSoFar(v);
    var c := server.collector;
    assert SentOk(c.history[h], c.arrivals, c.maxSize);
    StretchIsPrinted(v.printed, v.readQueue.Window() + v.readQueue.staged, v.received, c.history[h], c.arrivals,
                     c.maxSize);
  }

  lemma ArchivedSoFar(v: Verbatim)
    requires v.Valid()
    ensures v.readQueue.Ok() && Fits(v.printed)
    ensures v.received == EncodeAll(v.printed) + (v.readQueue.Window() + v.readQueue.staged)
  {
  }

  /** On values: a subscriber of everything that joined at `since` prints the arrivals from there on. */
  lemma StretchIsPrinted(printed: seq<Bytes>, partial: Bytes, received: Bytes, k: History, arrivals: seq<Record>,
                         maxSize: nat)
    requires Fits(printed) && received == EncodeAll(printed) + partial && received <= k.sent
    requires SentOk(k, arrivals, maxSize) && maxSize + 4 < U32_RANGE && k.interests == ALL_INTERESTS
    requires forall j :: 0 <= j < |arrivals| ==> arrivals[j].data != [] && arrivals[j].data[0] != 0
    ensures Stretch(printed, k.since, arrivals)
  {
    var until :| 0 <= until <= |arrivals| && SentBy(k, arrivals[..until], maxSize);
    StretchIsSeen(printed, partial, received, k, arrivals[..until], maxSize);
    StretchTrimmed(printed, printed, k.since, arrivals[..until], arrivals);
  }

  lemma StretchIsSeen(printed: seq<Bytes>, partial: Bytes, received: Bytes, k: History, arrivals: seq<Record>,
                      maxSize: nat)
    requires Fits(printed) && received == EncodeAll(printed) + partial && received <= k.sent
    requires SentBy(k, arrivals, maxSize) && maxSize + 4 < U32_RANGE && k.interests == ALL_INTERESTS
    requires forall j :: 0 <= j < |arrivals| ==> arrivals[j].data != [] && arrivals[j].data[0] != 0
    ensures Stretch(printed, k.since, arrivals)
  {
    var rs := arrivals[k.since..];
    AllWanted(rs);
    PrintedIsPrefix(printed, partial, received, rs, k.sent, maxSize);
    assert arrivals[k.since..k.since + |printed|] == rs[..|printed|];
  }

  /**
   End to end: whenever the subscriber joined, the archive's session is a stretch of the arrival-ordered
   log, and restricted to one source it is the next events of that producer, in the order of its calls,
   behind those that arrived before the subscriber joined.
   */
  lemma ArchiveIsTheLog(server: LogServer, loggers: seq<Logger>, h: int, v: Verbatim, i: nat)
    requires server.Valid() && Producers(server, loggers) && v.Valid()
    requires server.collector.maxSize + 4 < U32_RANGE
    requires h in server.collector.history && server.collector.history[h].interests == ALL_INTERESTS
    requires v.received <= server.collector.history[h].sent
    requires i < |loggers|
    ensures Stretch(v.printed, server.collector.history[h].since, server.collector.arrivals)
    ensures OneSource(server.collector.arrivals, server.collector.history[h].since, |v.printed|, server.inputs[i].id,
                      loggers[i].events)
  {
    ArchiveFollowsArrivals(server, loggers, h, v);
    StretchFollowsProducer(server, loggers, i, server.collector.history[h].since, |v.printed|);
  }

  /** Of one source, any stretch of the arrivals holds its producer's next events. */
  lemma StretchFollowsProducer(server: LogServer, loggers: seq<Logger>, i: nat, since: nat, n: nat)
    requires server.Valid() && Producers(server, loggers)
    requires i < |loggers| && since + n <= |server.collector.arrivals|
    ensures OneSource(server.collector.arrivals, since, n, server.inputs[i].id, loggers[i].events)
  {
    assert InputOk(server.inputs[i], server.collector.arrivals, server.taken);
    SourceIsLogged(loggers[i], server.inputs[i]);
    SourceInTwo(server.collector.arrivals, since, n, server.inputs[i].id, loggers[i].events);
  }

  /** Of one source, `n` arrivals from `since` on are its next events behind those before. */
  ghost predicate OneSource(arrivals: seq<Record>, since: nat, n: nat, id: U32, events: seq<Bytes>) {
    && since + n <= |arrivals|
    && FromSource(arrivals[..since], id) + FromSource(arrivals[since..since + n], id) <= events
  }

  lemma SourceInTwo(arrivals: seq<Record>, since: nat, n: nat, id: U32, events: seq<Bytes>)
    requires since + n <= |arrivals| && FromSource(arrivals, id) <= events
    ensures OneSource(arrivals, since, n, id, events)
  {
    FromSourcePrefix(arrivals, since + n, id);
    FromSourceAppend(arrivals[..since], arrivals[since..since + n], id);
    assert arrivals[..since] + arrivals[since..since + n] == arrivals[..since + n];
  }

  /** Each part is a stretch of the arrivals, from its own point on. */
  ghost predicate Stretches(parts: seq<seq<Bytes>>, since: seq<nat>, arrivals: seq<Record>) {
    && |since| == |parts|
    && forall k :: 0 <= k < |parts| ==> Stretch(parts[k], since[k], arrivals)
  }

  ghost predicate Stretch(part: seq<Bytes>, since: nat, arrivals: seq<Record>) {
    since + |part| <= |arrivals| && part == TaggedAll(arrivals[since..since + |part|])
  }

  lemma StretchTrimmed(part: seq<Bytes>, whole: seq<Bytes>, since: nat, arrivals: seq<Record>, arrivals': seq<Record>)
    requires Stretch(whole, since, arrivals) && part <= whole && arrivals <= arrivals'
    ensures Stretch(part, since, arrivals')
  {
    forall i | 0 <= i < |part| ensures part[i] == Tagged(arrivals'[since..since + |part|][i]) {
      assert part[i] == whole[i] == Tagged(arrivals[since..since + |whole|][i]);
    }
    assert part == TaggedAll(arrivals'[since..since + |part|]);
  }

  /** A restart keeps that: what is left of every session is a stretch of the arrivals, which only grow. */
  lemma StretchesSurvive(parts: seq<seq<Bytes>>, whole: seq<seq<Bytes>>, since: seq<nat>, arrivals: seq<Record>,
                         arrivals': seq<Record>)
    requires Stretches(whole, since, arrivals) && TrimmedTo(parts, whole) && arrivals <= arrivals'
    ensures Stretches(parts, since, arrivals')
  {
    forall k | 0 <= k < |parts| ensures Stretch(parts[k], since[k], arrivals') {
      StretchTrimmed(parts[k], whole[k], since[k], arrivals, arrivals');
    }
  }

  /**
   The bytes on disk, over all restarts: the rotated files and the current one, one after the other, are
   the frames of the sessions, each a stretch of the arrivals from the point where it joined.
   */
  lemma FilesAreTheLog(server: LogServer, loggers: seq<Logger>, h: int, v: Verbatim, since: seq<nat>)
    requires server.Valid() && Producers(server, loggers) && v.Valid()
    requires server.collector.maxSize + 4 < U32_RANGE
    requires h in server.collector.history && server.collector.history[h].interests == ALL_INTERESTS
    requires v.received <= server.collector.history[h].sent
    requires Stretches(v.earlier, since, server.collector.arrivals)
    ensures Flatten(v.rotated) + v.file == EncodeAll(Join(v.earlier + [v.printed]))
    ensures Stretches(v.earlier + [v.printed], since + [server.collector.history[h].since], server.collector.arrivals)
  {
    ArchiveFollowsArrivals(server, loggers, h, v);
    FilesHold(v.file, v.inFile, v.rotated, v.inRotated);
    JoinSnoc(v.earlier, v.printed);
  }

  lemma FilesHold(file: Bytes, inFile: seq<Bytes>, rotated: seq<Bytes>, inRotated: seq<seq<Bytes>>)
    requires FilesOk(file, inFile, rotated, inRotated)
    ensures Flatten(rotated) + file == EncodeAll(Join(inRotated) + inFile)
  {
    RotatedHold(rotated, inRotated);
    EncodeAllAppend(Join(inRotated), inFile);
  }

  lemma {:induction false} RotatedHold(rotated: seq<Bytes>, inRotated: seq<seq<Bytes>>)
    requires |rotated| == |inRotated| && forall i :: 0 <= i < |rotated| ==> rotated[i] == EncodeAll(inRotated[i])
    ensures Flatten(rotated) == EncodeAll(Join(inRotated))
    decreases |rotated|
  {
    if rotated == [] {
      assert EncodeAll([]) == [];
    } else {
      var n := |rotated| - 1;
      RotatedHold(rotated[..n], inRotated[..n]);
      FlattenSnoc(rotated[..n], rotated[n]);
      assert rotated[..n] + [rotated[n]] == rotated;
      EncodeAllAppend(Join(inRotated[..n]), inRotated[n]);
    }
  }

  /** The frames printed so far are the first of those the server set out to send. */
  lemma PrintedIsPrefix(printed: seq<Bytes>, partial: Bytes, received: Bytes, rs: seq<Record>, sent: Bytes,
                        maxSize: nat)
    requires Fits(printed) && received == EncodeAll(printed) + partial && received <= sent
    requires AllWithin(rs, maxSize) && sent <= EncodeAll(TaggedAll(rs)) && maxSize + 4 < U32_RANGE
    ensures |printed| <= |rs| && printed == TaggedAll(rs[..|printed|])
  {
    var bodies := TaggedAll(rs);
    assert Fits(bodies);
    assert EncodeAll(printed) <= received <= sent <= EncodeAll(bodies);
    PrefixFrames(EncodeAll(printed), bodies);
    DecodeEncode(printed, []);
    assert EncodeAll(printed) + [] == EncodeAll(printed);
    NoWholeFrame([]);
    assert printed + [] == printed;
    assert TaggedAll(rs[..|printed|]) == bodies[..|printed|];
  }
}
