/** The getaddr client's debounced, capped senders, and the rounds that reset them. */
module GetaddrRounds {
  import opened Bytes
  import opened Reconnects
  import CowMemory

  const GETADDR_LIMIT: nat := 24
  /** How long a sender waits for more enqueues. */
  const QUIET: real := 10.0

  // ---------------------------------------------------------------- runs of one sender

  datatype Event = Enqueued(t: real) | Pushed(t: real) | NewRound

  function Enqueues(events: seq<Event>): nat {
    if events == [] then 0 else Enqueues(events[..|events| - 1]) + if events[|events| - 1].Enqueued? then 1 else 0
  }

  function Pushes(events: seq<Event>): nat {
    if events == [] then 0 else Pushes(events[..|events| - 1]) + if events[|events| - 1].Pushed? then 1 else 0
  }

  /** Pushes since the round began. */
  function RoundPushes(events: seq<Event>): nat {
    if events == [] || events[|events| - 1].NewRound? then 0
    else RoundPushes(events[..|events| - 1]) + if events[|events| - 1].Pushed? then 1 else 0
  }

  /** A push is allowed here: fewer pushes than enqueues, room in the round, and 10 s of quiet. */
  predicate MayPush(events: seq<Event>, t: real) {
    && Pushes(events) < Enqueues(events)
    && RoundPushes(events) < GETADDR_LIMIT
    && forall i :: 0 <= i < |events| && events[i].Enqueued? ==> events[i].t + QUIET <= t
  }

  /** Every push of the run was allowed when it happened. */
  predicate Polite(events: seq<Event>) {
    forall i :: 0 <= i < |events| && events[i].Pushed? ==> MayPush(events[..i], events[i].t)
  }

  lemma PoliteNext(events: seq<Event>, e: Event)
    requires Polite(events) && (e.Pushed? ==> MayPush(events, e.t))
    ensures Polite(events + [e])
  {
    var all := events + [e];
    assert all[..|events|] == events;
    forall i | 0 <= i < |all| && all[i].Pushed? ensures MayPush(all[..i], all[i].t) {
      if i < |events| {
        assert all[..i] == events[..i];
      }
    }
  }

  lemma CountsNext(events: seq<Event>, e: Event)
    ensures Enqueues(events + [e]) == Enqueues(events) + if e.Enqueued? then 1 else 0
    ensures Pushes(events + [e]) == Pushes(events) + if e.Pushed? then 1 else 0
    ensures RoundPushes(events + [e]) == if e.NewRound? then 0 else RoundPushes(events) + if e.Pushed? then 1 else 0
  {
    assert (events + [e])[..|events|] == events;
  }

  lemma PrefixPolite(events: seq<Event>, n: nat)
    requires Polite(events) && n <= |events|
    ensures Polite(events[..n])
  {
    forall i | 0 <= i < n && events[i].Pushed? ensures MayPush(events[..n][..i], events[i].t) {
      assert events[..n][..i] == events[..i];
    }
  }

  /**
   What a polite run amounts to: never more than 24 pushes in a round, never more pushes than enqueues,
   and every push at least 10 s after every enqueue before it.
   */
  lemma {:induction false} PoliteRuns(events: seq<Event>)
    requires Polite(events)
    ensures RoundPushes(events) <= GETADDR_LIMIT && Pushes(events) <= Enqueues(events)
    ensures forall i, j :: 0 <= i < j < |events| && events[i].Enqueued? && events[j].Pushed? ==>
      events[j].t >= events[i].t + QUIET
  {
    forall i, j | 0 <= i < j < |events| && events[i].Enqueued? && events[j].Pushed?
      ensures events[j].t >= events[i].t + QUIET
    {
      assert MayPush(events[..j], events[j].t);
      assert events[..j][i] == events[i];
    }
    if events != [] {
      var n := |events| - 1;
      PrefixPolite(events, n);
      PoliteRuns(events[..n]);
      assert events == events[..n] + [events[n]];
      CountsNext(events[..n], events[n]);
    }
  }

  /** Between two rounds: any stretch of a run without a new round holds at most 24 pushes. */
  lemma {:induction false} AtMost24PerRound(events: seq<Event>, i: nat, j: nat)
    requires Polite(events) && i <= j <= |events|
    requires forall k :: i <= k < j ==> !events[k].NewRound?
    ensures Pushes(events[..j]) - Pushes(events[..i]) <= GETADDR_LIMIT
  {
    PrefixPolite(events, j);
    PoliteRuns(events[..j]);
    StretchCounts(events, i, j);
  }

  lemma {:induction false} StretchCounts(events: seq<Event>, i: nat, j: nat)
    requires i <= j <= |events|
    requires forall k :: i <= k < j ==> !events[k].NewRound?
    ensures Pushes(events[..j]) - Pushes(events[..i]) <= RoundPushes(events[..j])
    decreases j
  {
    if i < j {
      StretchCounts(events, i, j - 1);
      assert events[..j] == events[..j - 1] + [events[j - 1]];
      CountsNext(events[..j - 1], events[j - 1]);
    }
  }

  // ---------------------------------------------------------------- one sender

  class HidHandler {
    const hid: int
    var timer: Timer
    var lastEnqueue: real
    var sequence: U32
    var count: nat
    ghost var events: seq<Event>
    ghost var clock: real

    ghost predicate Valid()
      reads this
    {
      && Polite(events) && count == RoundPushes(events) <= GETADDR_LIMIT
      && Pushes(events) + (if timer.Armed? then 1 else 0) <= Enqueues(events)
      && (forall i :: 0 <= i < |events| && events[i].Enqueued? ==> events[i].t <= lastEnqueue)
      && lastEnqueue <= clock
      // An enqueue is never forgotten: the timer looks again no later than its quiet time.
      && (timer.Armed? ==> timer.at <= lastEnqueue + QUIET)
    }

    constructor (hid: int, round: U32, start: real, now: real)
      requires now > 0.0
      ensures Valid() && clock == now && sequence == round && this.hid == hid
      ensures events == if now - start < 600.0 then [Enqueued(now)] else []
    {
      this.hid := hid;
      timer, lastEnqueue, sequence, count, events, clock := Idle, 0.0, round, 0, [], now;
      new;
      if now - start < 600.0 {
        Enqueue(now);
        assert [] + [Enqueued(now)] == [Enqueued(now)];
      }
    }

    method Enqueue(now: real)
      requires Valid() && now >= clock
      modifies `timer, `lastEnqueue, `events, `clock
      ensures Valid() && events == old(events) + [Enqueued(now)] && lastEnqueue == clock == now
      ensures timer == if old(timer).Idle? then Armed(now + QUIET) else old(timer)
    {
      lastEnqueue := now;
      if timer.Idle? {
        timer := Armed(now + QUIET);
      }
      PoliteNext(events, Enqueued(now));
      CountsNext(events, Enqueued(now));
      events, clock := events + [Enqueued(now)], now;
    }

    /** The timer fires: push if the waiting period is over and the round has room, else wait for its end. */
    method TimerFired(round: U32, now: real) returns (push: bool)
      requires Valid() && now >= clock && timer.Armed? && timer.at <= now
      modifies `timer, `count, `events, `clock
      ensures Valid() && clock == now
      ensures push <==> now >= lastEnqueue + QUIET && sequence == round && old(count) < GETADDR_LIMIT
      ensures events == if push then old(events) + [Pushed(now)] else old(events)
      ensures timer == if now >= lastEnqueue + QUIET then Idle else Armed(lastEnqueue + QUIET)
    {
      push := false;
      timer := Idle;
      clock := now;
      var after := QUIET + lastEnqueue - now;
      if after <= 0.0 {
        if sequence == round && count < GETADDR_LIMIT {
          count := count + 1;
          push := true;
          PoliteNext(events, Pushed(now));
          CountsNext(events, Pushed(now));
          events := events + [Pushed(now)];
        }
      } else {
        timer := Armed(now + after);
      }
    }

    method SetSequence(s: U32)
      requires Valid()
      modifies `sequence, `count, `events
      ensures Valid() && sequence == s && events == if s == old(sequence) then old(events) else old(events) + [NewRound]
    {
      if s != sequence {
        sequence := s;
        count := 0;
        PoliteNext(events, NewRound);
        CountsNext(events, NewRound);
        events := events + [NewRound];
      }
    }
  }

  // ---------------------------------------------------------------- all senders

  ghost predicate Sound(x: HidHandler)
    reads x
  {
    x.Valid()
  }

  class Client {
    /** g_known_hids. */
    var known: map<int, HidHandler>
    /** g_current_getaddr and g_getaddr_start. */
    var round: U32
    var start: real
    /** g_pending_getaddrs. */
    var pending: seq<int>
    /** The hids pushed so far, and those that were sent to the connector. */
    ghost var pushed: seq<int>
    ghost var sent: seq<int>
    ghost var clock: real

    /** Every known sender is in the current round; whatever was pushed is sent or pending, in order. */
    ghost predicate Valid()
      reads this, known.Values
    {
      && clock > 0.0 && pushed == sent + pending
      && forall h :: h in known ==>
           known[h].Valid() && known[h].hid == h && known[h].sequence == round && known[h].clock <= clock
    }

    constructor (now: real)
      requires now > 0.0
      ensures Valid() && known == map[] && round == 1 && clock == now
    {
      known, round, start, pending, pushed, sent, clock := map[], 1, 0.0, [], [], [], now;
    }

    /** A connection came up: a known sender of that id is replaced by a new one. */
    method Up(hid: int, now: real)
      requires Valid() && now >= clock
      modifies this
      ensures Valid() && hid in known && fresh(known[hid]) && known == old(known)[hid := known[hid]] && clock == now
      ensures round == old(round) && start == old(start) && pending == old(pending) && pushed == old(pushed)
      ensures sent == old(sent)
      ensures known[hid].events == if now - start < 600.0 then [Enqueued(now)] else []
    {
      var h := new HidHandler(hid, round, start, now);
      known, clock := known[hid := h], now;
    }

    method Down(hid: int)
      requires Valid()
      modifies `known
      ensures Valid() && known == old(known) - {hid}
    {
      known := known - {hid};
    }

    /** An addr message from a known hid. */
    method Addr(hid: int, now: real)
      requires Valid() && now >= clock
      modifies `clock, if hid in known then {known[hid]} else {}
      ensures Valid() && clock == now
      ensures hid in known ==> known[hid].events == old(known[hid].events) + [Enqueued(now)]
    {
      if hid in known {
        known[hid].Enqueue(now);
      }
      clock := now;
    }

    /** A sender's timer fires; being in the current round, only the quiet time and the cap decide. */
    method Fire(hid: int, now: real) returns (push: bool)
      requires Valid() && now >= clock && hid in known && known[hid].timer.Armed? && known[hid].timer.at <= now
      modifies `clock, `pending, `pushed, known[hid]
      ensures Valid() && clock == now
      ensures push <==>
        now >= old(known[hid].lastEnqueue) + QUIET && RoundPushes(old(known[hid].events)) < GETADDR_LIMIT
      ensures known[hid].events == old(known[hid].events) + if push then [Pushed(now)] else []
      ensures pushed == old(pushed) + if push then [hid] else []
    {
      push := known[hid].TimerFired(round, now);
      if push {
        pending, pushed := pending + [known[hid].hid], pushed + [hid];
        Associate(sent, old(pending), [hid]);
      }
      clock := now;
    }

    /** clock_cb: a new round begins for every known sender. */
    method NextRound(now: real)
      requires Valid() && now >= clock
      modifies `round, `start, `clock, set h | h in known :: known[h]
      ensures Valid() && clock == start == now && round == (old(round) + 1) % U32_RANGE
      ensures forall h :: h in known ==>
        known[h].sequence == round && known[h].events == old(known[h].events) + [NewRound]
    {
      round, start, clock := (round + 1) % U32_RANGE, now, now;
      Resequence();
      forall h | h in known ensures known[h].Valid() {
        assert Sound(known[h]);
      }
    }

    /** set_sequence on every known sender. */
    method Resequence()
      requires forall h :: h in known ==> Sound(known[h]) && known[h].hid == h && known[h].sequence != round
      modifies set h | h in known :: known[h]
      ensures forall h {:trigger Sound(known[h])} :: h in known ==> Sound(known[h])
      ensures forall h :: h in known ==> known[h].sequence == round && known[h].clock == old(known[h].clock)
      ensures forall h :: h in known ==> known[h].events == old(known[h].events) + [NewRound]
    {
      var todo := known.Keys;
      while todo != {}
        invariant todo <= known.Keys
        invariant forall h {:trigger Sound(known[h])} :: h in known ==> Sound(known[h])
        invariant forall h :: h in known ==> known[h].clock == old(known[h].clock)
        invariant forall h :: h in todo ==> known[h].sequence != round && known[h].events == old(known[h].events)
        invariant forall h :: h in known && h !in todo ==>
          known[h].sequence == round && known[h].events == old(known[h].events) + [NewRound]
        decreases |todo|
      {
        CowMemory.Inhabited(todo);
        var h :| h in todo;
        assert Sound(known[h]);
        known[h].SetSequence(round);
        todo := todo - {h};
      }
    }

    /** getaddr_pusher: everything pending is sent in one command. */
    method Flush() returns (targets: seq<int>)
      requires Valid()
      modifies `pending, `sent
      ensures Valid() && pending == [] && targets == old(pending) && sent == old(sent) + targets && sent == pushed
    {
      targets := pending;
      sent, pending := sent + pending, [];
      assert sent + [] == sent;
    }
  }
}
