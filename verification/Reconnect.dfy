/** The getaddr client's reconnect machine: one per remote address, driven by a timer and by notifications. */
module Reconnects {
  import opened Bytes

  /** A libev timer that is not repeating: stopped when it fires. */
  datatype Timer = Idle | Armed(at: real)

  datatype State = Disconnected | Connecting | Connected

  const MAX_FAILS: nat := 14
  /** 5 * (2^14 - 1) seconds. */
  const MAX_DELAY: real := 81915.0
  /** How long a connect may be pending. */
  const PENDING: real := 900.0

  lemma {:induction false} Pow2Monotone(a: nat, b: nat)
    requires a <= b
    ensures Pow2(a) <= Pow2(b)
  {
    if a < b {
      Pow2Monotone(a, b - 1);
    }
  }

  /** The delay set_reconnect_timer draws: 5 * ((1 << k) - 1) with k between 0 and the fails. */
  function Delay(k: nat): real {
    (5 * (Pow2(k) - 1)) as real
  }

  /** The delays are 0, 5, 15, 35, ...: each is twice the one before and 5 s more, so a later one is longer. */
  lemma DelaysGrow(k: nat)
    ensures Delay(0) == 0.0 && Delay(k + 1) == 2.0 * Delay(k) + 5.0 && Delay(k) < Delay(k + 1)
  {
    assert (5 * (2 * Pow2(k) - 1)) as real == 2.0 * (5 * (Pow2(k) - 1)) as real + 5.0;
  }

  lemma DelayBound(k: nat)
    requires k <= MAX_FAILS
    ensures 0.0 <= Delay(k) <= MAX_DELAY
  {
    Pow2Monotone(k, MAX_FAILS);
    assert Pow2(14) == 0x4000;
  }

  // ---------------------------------------------------------------- runs

  /** What happened: a connect command was written, or the connector reported a state. */
  datatype Event = Connect(t: real) | Notified(t: real)

  /** The events happened in order, and a connect right after a connect is more than 900 s later. */
  ghost predicate Spaced(events: seq<Event>) {
    && (forall i, j :: 0 <= i < j < |events| ==> events[i].t <= events[j].t)
    && (forall i, j :: 0 <= i && j == i + 1 < |events| && events[i].Connect? && events[j].Connect? ==>
          events[j].t - events[i].t > PENDING)
  }

  /** Any two connects are separated by a notification or by more than 900 s. */
  lemma ConnectsApart(events: seq<Event>, i: nat, j: nat)
    requires Spaced(events) && i < j < |events| && events[i].Connect? && events[j].Connect?
    ensures (exists k :: i < k < j && events[k].Notified?) || events[j].t - events[i].t > PENDING
  {
    var k := j - 1;
    if k > i && events[k].Connect? {
      assert events[i].t <= events[k].t;
    }
  }

  lemma SpacedNotified(events: seq<Event>, t: real)
    requires Spaced(events) && (events != [] ==> events[|events| - 1].t <= t)
    ensures Spaced(events + [Notified(t)])
  {
  }

  lemma SpacedConnect(events: seq<Event>, t: real)
    requires Spaced(events) && (events != [] ==> events[|events| - 1].t <= t)
    requires events != [] && events[|events| - 1].Connect? ==> t - events[|events| - 1].t > PENDING
    ensures Spaced(events + [Connect(t)])
  {
  }

  class CxnHandler {
    var state: State
    var pendingTime: real
    var fails: nat
    var timer: Timer
    ghost var events: seq<Event>
    ghost var clock: real

    ghost predicate Valid()
      reads this
    {
      && clock > 0.0 && Spaced(events) && (events != [] ==> events[|events| - 1].t <= clock)
      && (state == Connecting <==> pendingTime > 0.0) && pendingTime >= 0.0
      && fails <= MAX_FAILS
      && (timer.Idle? ==> state == Connected && fails == 0)
      && (timer.Armed? ==> timer.at <= clock + MAX_DELAY)
      // While a connect is pending it is the last thing that happened, and it gets looked at again in time.
      && (state == Connecting ==>
            && events != [] && events[|events| - 1] == Connect(pendingTime)
            && timer.at <= pendingTime + MAX_DELAY)
      && (state == Disconnected && events != [] ==> events[|events| - 1].Notified?)
    }

    /** The constructor calls the timer callback. Only DISCONNECTED and CONNECTED are ever passed. */
    constructor (s: State, now: real, choice: nat)
      requires s != Connecting && now > 0.0
      ensures Valid() && clock == now
      ensures if s == Connected then state == Connected && events == [] && timer.Idle?
              else state == Connecting && events == [Connect(now)] && fails == 1
    {
      state, pendingTime, fails, timer, events, clock := s, 0.0, 0, Idle, [], now;
      new;
      var _ := Advance(now, choice);
    }

    /** state(s): a notification. */
    method Notify(s: State, now: real, choice: nat)
      requires Valid() && s != Connecting && now >= clock
      modifies this
      ensures Valid() && clock == now && state == s && pendingTime == 0.0 && fails == old(fails)
      ensures events == old(events) + [Notified(now)]
      ensures if s == Disconnected && old(timer).Idle? then timer == Armed(now) else timer == old(timer)
    {
      state := s;
      if state == Disconnected && timer.Idle? {
        SetReconnectTimer(now, choice);
      }
      pendingTime := 0.0;
      SpacedNotified(events, now);
      events := events + [Notified(now)];
      clock := now;
    }

    method SetReconnectTimer(now: real, choice: nat)
      requires fails <= MAX_FAILS
      modifies `timer
      ensures timer == Armed(now + Delay(choice % (fails + 1))) && now <= timer.at <= now + Delay(fails)
      ensures timer.at <= now + MAX_DELAY
    {
      var k := choice % (fails + 1);
      Pow2Monotone(k, fails);
      DelayBound(fails);
      timer := Armed(now + Delay(k));
    }

    /** The timer fires. */
    method TimerFired(now: real, choice: nat) returns (dialed: bool)
      requires Valid() && now >= clock && timer.Armed? && timer.at <= now
      modifies this
      ensures Valid() && clock == now
      ensures dialed <==> old(state) == Disconnected || (old(state) == Connecting && now > old(pendingTime) + PENDING)
      ensures events == if dialed then old(events) + [Connect(now)] else old(events)
      ensures state == if dialed then Connecting else old(state)
      ensures fails == if dialed then (if old(fails) < MAX_FAILS then old(fails) + 1 else MAX_FAILS)
                       else if old(state) == Connected && old(fails) > 0 then old(fails) - 1 else old(fails)
      ensures timer == if dialed then Armed(now + Delay(choice % (fails + 1)))
                       else if old(state) == Connecting then Armed(old(pendingTime) + PENDING)
                       else if old(fails) > 0 then Armed(now + 10.0) else Idle
    {
      timer := Idle;
      dialed := Advance(now, choice);
    }

    /** timer_cb with the timer stopped. */
    method Advance(now: real, choice: nat) returns (dialed: bool)
      requires now >= clock > 0.0 && Spaced(events) && (events != [] ==> events[|events| - 1].t <= clock)
      requires (state == Connecting <==> pendingTime > 0.0) && pendingTime >= 0.0
      requires state == Connecting ==> events != [] && events[|events| - 1] == Connect(pendingTime)
      requires state == Disconnected && events != [] ==> events[|events| - 1].Notified?
      requires fails <= MAX_FAILS && timer.Idle?
      modifies this
      ensures Valid() && clock == now
      ensures dialed <==> old(state) == Disconnected || (old(state) == Connecting && now > old(pendingTime) + PENDING)
      ensures events == if dialed then old(events) + [Connect(now)] else old(events)
      ensures state == if dialed then Connecting else old(state)
      ensures fails == if dialed then (if old(fails) < MAX_FAILS then old(fails) + 1 else MAX_FAILS)
                       else if old(state) == Connected && old(fails) > 0 then old(fails) - 1 else old(fails)
      ensures timer == if dialed then Armed(now + Delay(choice % (fails + 1)))
                       else if old(state) == Connecting then Armed(old(pendingTime) + PENDING)
                       else if old(fails) > 0 then Armed(now + 10.0) else Idle
    {
      dialed := false;
      Expire(now);
      clock := now;
      if pendingTime == 0.0 {
        match state {
          case Connecting =>
            assert false;
          case Connected =>
            if fails > 0 {
              fails := fails - 1;
              timer := Armed(now + 10.0);
            }
          case Disconnected =>
            Dial(now, choice);
            dialed := true;
        }
      }
    }

    /** A pending connect is given up after its time; before that the timer is set to its end. */
    method Expire(now: real)
      requires (state == Connecting <==> pendingTime > 0.0) && pendingTime >= 0.0
      modifies `pendingTime, `state, `timer
      ensures if old(state) == Connecting && now > old(pendingTime) + PENDING
              then state == Disconnected && pendingTime == 0.0 && timer == old(timer)
              else state == old(state) && pendingTime == old(pendingTime)
                   && timer == if state == Connecting then Armed(pendingTime + PENDING) else old(timer)
    {
      if pendingTime > 0.0 {
        var after := pendingTime + PENDING - now;
        if after < 0.0 {
          pendingTime := 0.0;
          if state == Connecting {
            state := Disconnected;
          }
        } else {
          timer := Armed(now + after);
        }
      }
    }

    /** Write a connect command and look again later. */
    method Dial(now: real, choice: nat)
      requires state == Disconnected && fails <= MAX_FAILS && now == clock > 0.0
      requires Spaced(events) && (events != [] ==> events[|events| - 1].t <= now)
      requires events != [] && events[|events| - 1].Connect? ==> now - events[|events| - 1].t > PENDING
      modifies `state, `events, `pendingTime, `fails, `timer
      ensures Valid() && state == Connecting && events == old(events) + [Connect(now)]
      ensures timer == Armed(now + Delay(choice % (fails + 1)))
      ensures fails == if old(fails) < MAX_FAILS then old(fails) + 1 else MAX_FAILS
    {
      SpacedConnect(events, now);
      state, pendingTime := Connecting, now;
      events := events + [Connect(now)];
      fails := if fails + 1 < MAX_FAILS then fails + 1 else MAX_FAILS;
      SetReconnectTimer(now, choice);
    }
  }
}
