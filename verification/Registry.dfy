/** The messages that control clients have registered for sending. */
module Registries {
  import opened Bytes
  import opened BitcoinHandlers

  datatype Option<T> = None | Some(value: T)

  type Tables = map<int, map<int, Bytes>>

  function Table(messages: Tables, owner: int): map<int, Bytes> {
    if owner in messages then messages[owner] else map[]
  }

  /** Every registered message is a whole bitcoin message. */
  predicate AllBitcoin(messages: Tables) {
    forall h, id :: h in messages && id in messages[h] ==> IsBitcoin(messages[h][id])
  }

  /** All registered ids are among 1..n. */
  predicate WithinIds(messages: Tables, n: int) {
    forall h, id :: h in messages && id in messages[h] ==> 1 <= id <= n
  }

  /** Nothing registered is lost or replaced. */
  predicate Keeps(messages: Tables, messages': Tables) {
    forall h, id :: h in messages && id in messages[h] ==>
      h in messages' && id in messages'[h] && messages'[h][id] == messages[h][id]
  }

  /** Before the counter wraps, the ids handed out are 1, 2, 3, …: distinct and not zero. */
  ghost predicate InOrder(tickets: seq<int>) {
    forall i :: 0 <= i < |tickets| ==> tickets[i] == i + 1
  }

  /** Everything granted to an owner that is not in `erased` is registered as it was granted. */
  predicate Stands(granted: Tables, erased: set<int>, messages: Tables) {
    forall h, id :: h in granted && id in granted[h] && h !in erased ==>
      h in messages && id in messages[h] && messages[h][id] == granted[h][id]
  }

  /** insert of a message under an id that is free. */
  function Inserted(messages: Tables, owner: int, id: int, m: Bytes): Tables {
    messages[owner := Table(messages, owner)[id := m]]
  }

  lemma InsertedOk(messages: Tables, owner: int, id: int, m: Bytes, n: int)
    requires AllBitcoin(messages) && IsBitcoin(m) && id !in Table(messages, owner)
    ensures AllBitcoin(Inserted(messages, owner, id, m)) && Keeps(messages, Inserted(messages, owner, id, m))
    ensures WithinIds(messages, n) && 1 <= id <= n + 1 ==> WithinIds(Inserted(messages, owner, id, m), n + 1)
  {
  }

  lemma TouchedOk(messages: Tables, owner: int, n: int)
    requires AllBitcoin(messages)
    ensures var messages' := messages[owner := Table(messages, owner)];
            AllBitcoin(messages') && Keeps(messages, messages') && (WithinIds(messages, n) ==> WithinIds(messages', n))
  {
  }

  lemma StandsNext(granted: Tables, erased: set<int>, messages: Tables, messages': Tables)
    requires Stands(granted, erased, messages) && Keeps(messages, messages')
    ensures Stands(granted, erased, messages')
  {
  }

  lemma StandsInserted(granted: Tables, erased: set<int>, messages: Tables, owner: int, id: int, m: Bytes)
    requires Stands(granted, erased, messages) && id !in Table(messages, owner)
    ensures Stands(Inserted(granted, owner, id, m), erased, Inserted(messages, owner, id, m))
  {
  }

  /** What was granted to one owner is still there unless its table was erased. */
  lemma TicketStands(r: Registry, owner: int, id: int)
    requires r.Valid() && owner !in r.history.erased && id in Table(r.history.granted, owner)
    ensures id in Table(r.messages, owner) && r.messages[owner][id] == r.history.granted[owner][id]
    ensures IsBitcoin(r.messages[owner][id])
  {
  }

  /**
   History: how often an id was taken, the non-zero ids sent back by any handler in order, what they
   were sent back for, and the tables that were erased.
   */
  datatype History = History(issued: nat, tickets: seq<int>, granted: Tables, erased: set<int>)

  /** The history after a registration that was answered with `ticket`. */
  function Registered(h: History, owner: int, payload: Bytes, ticket: int): History {
    if !IsBitcoin(payload) then h
    else if ticket == 0 then h.(issued := h.issued + 1)
    else h.(issued := h.issued + 1, tickets := h.tickets + [ticket],
            granted := Inserted(h.granted, owner, ticket, payload))
  }

  ghost predicate RegistryOk(nextId: int, messages: Tables, h: History) {
    && nextId == (h.issued + 1) % U32_RANGE && AllBitcoin(messages)
    && (h.issued < U32_RANGE ==> WithinIds(messages, h.issued) && InOrder(h.tickets) && |h.tickets| == h.issued)
    && Stands(h.granted, h.erased, messages)
  }

  /** A registration: the tables and the counter afterwards, and the id that is sent back. */
  datatype Registration = Registration(messages: Tables, nextId: U32, ticket: U32)

  function After(id: U32): U32 {
    if id == U32_RANGE - 1 then 0 else id + 1
  }

  /** What a registration does: a whole message takes an id, and is stored under it unless the owner holds one there. */
  function Registering(messages: Tables, nextId: U32, owner: int, payload: Bytes): Registration {
    if !IsBitcoin(payload) then Registration(messages, nextId, 0)
    else if nextId in Table(messages, owner) then
      Registration(messages[owner := Table(messages, owner)], After(nextId), 0)
    else Registration(Inserted(messages, owner, nextId, payload), After(nextId), nextId)
  }

  lemma RegisteringKeeps(messages: Tables, nextId: U32, owner: int, payload: Bytes)
    requires AllBitcoin(messages)
    ensures Keeps(messages, Registering(messages, nextId, owner, payload).messages)
    ensures AllBitcoin(Registering(messages, nextId, owner, payload).messages)
  {
    TouchedOk(messages, owner, 0);
    if IsBitcoin(payload) && nextId !in Table(messages, owner) {
      InsertedOk(messages, owner, nextId, payload, 0);
    }
  }

  /** A registration keeps the registry in order, and its id is what it should be. */
  lemma RegisteringOk(messages: Tables, nextId: U32, h: History, owner: int, payload: Bytes)
    requires RegistryOk(nextId, messages, h)
    ensures var r := Registering(messages, nextId, owner, payload);
            && RegistryOk(r.nextId, r.messages, Registered(h, owner, payload, r.ticket))
            && (IsBitcoin(payload) && h.issued < U32_RANGE - 1 ==> r.ticket == h.issued + 1 && r.ticket !in h.tickets)
  {
    CounterNext(nextId, h.issued);
    if IsBitcoin(payload) {
      if nextId in Table(messages, owner) {
        TouchedOk(messages, owner, h.issued);
        StandsNext(h.granted, h.erased, messages, messages[owner := Table(messages, owner)]);
      } else {
        StoredOk(messages, nextId, h, owner, payload);
      }
    }
  }

  lemma CounterNext(nextId: U32, issued: nat)
    requires nextId == (issued + 1) % U32_RANGE
    ensures After(nextId) == (issued + 2) % U32_RANGE
    ensures issued < U32_RANGE - 1 ==> nextId == issued + 1
    ensures issued == U32_RANGE - 1 ==> nextId == 0
  {
  }

  lemma StoredOk(messages: Tables, nextId: U32, h: History, owner: int, payload: Bytes)
    requires RegistryOk(nextId, messages, h) && IsBitcoin(payload) && nextId !in Table(messages, owner)
    ensures var messages' := Inserted(messages, owner, nextId, payload);
            var h' := Registered(h, owner, payload, nextId);
            && AllBitcoin(messages') && Stands(h'.granted, h'.erased, messages')
            && (h'.issued < U32_RANGE ==>
                  WithinIds(messages', h'.issued) && InOrder(h'.tickets) && |h'.tickets| == h'.issued)
  {
    CounterNext(nextId, h.issued);
    InsertedOk(messages, owner, nextId, payload, h.issued);
    StandsInserted(h.granted, h.erased, messages, owner, nextId, payload);
    StandsNext(h.granted, h.erased, messages, Inserted(messages, owner, nextId, payload));
  }

  class Registry {
    /** g_message_ids. */
    var nextId: U32
    /** g_messages: handler id, message id, message. */
    var messages: Tables
    ghost var history: History

    ghost predicate Valid()
      reads this
    {
      RegistryOk(nextId, messages, history)
    }

    constructor ()
      ensures Valid() && messages == map[] && nextId == 1 && history == History(0, [], map[], {})
    {
      nextId, messages, history := 1, map[], History(0, [], map[], {});
    }

    /**
     Registration of a payload. The length check admits exactly the whole bitcoin messages. The id
     sent back is 0 exactly when the payload is none of those, the counter has come round to 0, or the
     owner still holds a message under that id; while fewer than 2^32 - 1 ids have been taken, a whole
     message gets the next id, never seen before.
     */
    method Register(owner: int, payload: Bytes) returns (ticket: U32)
      requires Valid()
      modifies this
      ensures Valid() && Keeps(old(messages), messages)
      ensures ticket == 0 <==> !IsBitcoin(payload) || old(nextId) == 0 || old(nextId) in Table(old(messages), owner)
      ensures ticket != 0 ==>
        && ticket == old(nextId) && owner in messages && ticket in messages[owner] && messages[owner][ticket] == payload
        && ticket !in Table(old(messages), owner)
      ensures messages - {owner} == old(messages) - {owner}
      ensures IsBitcoin(payload) && old(history).issued < U32_RANGE - 1 ==>
        ticket == old(history).issued + 1 && ticket !in old(history).tickets
      ensures history == Registered(old(history), owner, payload, ticket)
      ensures Registration(messages, nextId, ticket) == Registering(old(messages), old(nextId), owner, payload)
    {
      RegisteringKeeps(messages, nextId, owner, payload);
      RegisteringOk(messages, nextId, history, owner, payload);
      ticket := 0;
      if HEADER <= |payload| && |payload| == HEADER + FromLE(payload[16..20]) {
        var id := nextId;
        nextId := After(nextId);
        ticket := Insert(owner, id, payload);
      }
      history := Registered(history, owner, payload, ticket);
    }

    /** g_messages[owner].insert: nothing happens if the id is taken. */
    method Insert(owner: int, id: U32, payload: Bytes) returns (ticket: U32)
      modifies `messages
      ensures if id in Table(old(messages), owner)
              then ticket == 0 && messages == old(messages)[owner := Table(old(messages), owner)]
              else ticket == id && messages == Inserted(old(messages), owner, id, payload)
    {
      var table := Table(messages, owner);
      ticket := 0;
      if id !in table {
        ticket, table := id, table[id := payload];
      }
      messages := messages[owner := table];
    }

    /** g_messages[owner].find(id); looking makes an empty table where there is none. */
    method Find(owner: int, id: int) returns (m: Option<Bytes>)
      requires Valid()
      modifies `messages
      ensures Valid() && messages == old(messages)[owner := Table(old(messages), owner)]
      ensures m == if id in Table(old(messages), owner) then Some(Table(old(messages), owner)[id]) else None
      ensures m.Some? ==> IsBitcoin(m.value)
    {
      var table := Table(messages, owner);
      TouchedOk(messages, owner, history.issued);
      StandsNext(history.granted, history.erased, messages, messages[owner := table]);
      messages := messages[owner := table];
      m := if id in table then Some(table[id]) else None;
    }

    /** g_messages.erase(key): exactly that table goes. */
    method Erase(key: int)
      requires Valid()
      modifies `messages, `history
      ensures Valid() && messages == old(messages) - {key}
      ensures history == old(history).(erased := old(history).erased + {key})
    {
      messages := messages - {key};
      history := history.(erased := history.erased + {key});
    }
  }

  /** A failing run: after 2^32 - 1 registrations of one message the next one, just as valid, gets the id 0. */
  method WrapsAround(owner: int) returns (r: Registry, ticket: U32)
    ensures r.Valid() && r.history.issued == U32_RANGE && ticket == 0
    ensures IsBitcoin(Zeros(HEADER)) && 0 in Table(r.messages, owner) && r.messages[owner][0] == Zeros(HEADER)
  {
    r := new Registry();
    assert Zeros(HEADER)[16..20] == [0, 0, 0, 0];
    for i := 0 to U32_RANGE - 1
      invariant r.Valid() && r.history.issued == i && fresh(r)
    {
      var _ := r.Register(owner, Zeros(HEADER));
    }
    assert 0 !in Table(r.messages, owner);
    ticket := r.Register(owner, Zeros(HEADER));
  }
}
