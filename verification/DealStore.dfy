/**
 Which deal a chat's messages go to: the tables behind the active-deal pin, the routing of an inbound message, and the
 writes of the client turn that follows it.
 */
module DealStore {
  import opened Wrappers
  import opened Stages

  /**
   A row of the deals table; `active` is the active_for_chat flag of its metadata, `lastMessage` the newest message's
   time.
   */
  datatype Deal = Deal(chat: Option<int>, client: Option<nat>, status: Status, paused: bool, takeover: bool,
                       active: bool, lastMessage: Option<nat>, updated: nat)

  /** `clients` maps a chat to the client it resolves to, `pins` a client to the active_deal_id of its metadata. */
  datatype Tables = Tables(deals: map<nat, Deal>, pins: map<nat, nat>, clients: map<int, nat>)

  predicate OpenIn(d: Deal, chat: int) { d.chat == Some(chat) && !Terminal(d.status) }

  predicate Resting(d: Deal) { d.paused || d.takeover }

  function OpenDeals(t: Tables, chat: int): set<nat> {
    set id | id in t.deals && OpenIn(t.deals[id], chat)
  }

  function Flagged(t: Tables, chat: int): set<nat> {
    set id | id in t.deals && OpenIn(t.deals[id], chat) && t.deals[id].active
  }

  function PinnedFor(t: Tables, chat: int): Option<nat> {
    if chat in t.clients && t.clients[chat] in t.pins then Some(t.pins[t.clients[chat]]) else None
  }

  lemma OpenMeans(t: Tables, chat: int)
    ensures OpenDeals(t, chat) == {} <==>
              forall o :: o in t.deals && t.deals[o].chat == Some(chat) ==>
                t.deals[o].status in {ClosedWon, ClosedLost, Cancelled}
  {
    forall o | o in t.deals && t.deals[o].chat == Some(chat) && t.deals[o].status !in {ClosedWon, ClosedLost, Cancelled}
      ensures o in OpenDeals(t, chat)
    {
    }
  }

  // --- the order in which open deals are preferred

  /** Later first, and none at all last. */
  function Recency(time: Option<nat>): int { if time.Some? then time.value else -1 }

  /** d sorts before e, or may: ties are broken arbitrarily. */
  predicate Ahead(d: Deal, e: Deal) {
    if Resting(d) != Resting(e) then !Resting(d)
    else if d.active != e.active then d.active
    else if Recency(d.lastMessage) != Recency(e.lastMessage) then Recency(e.lastMessage) < Recency(d.lastMessage)
    else e.updated <= d.updated
  }

  predicate Foremost(deals: map<nat, Deal>, ids: set<nat>, id: nat)
    requires forall o :: o in ids ==> o in deals
  {
    id in ids && forall o :: o in ids ==> Ahead(deals[id], deals[o])
  }

  predicate Newest(deals: map<nat, Deal>, ids: set<nat>, id: nat)
    requires forall o :: o in ids ==> o in deals
  {
    id in ids && forall o :: o in ids ==> deals[o].updated <= deals[id].updated
  }

  lemma {:induction false} SomeForemost(deals: map<nat, Deal>, ids: set<nat>) returns (id: nat)
    requires ids != {} && forall o :: o in ids ==> o in deals
    ensures Foremost(deals, ids, id)
  {
    id :| id in ids;
    if ids != {id} {
      var rest := SomeForemost(deals, ids - {id});
      if !Ahead(deals[id], deals[rest]) {
        id := rest;
      }
    }
  }

  lemma {:induction false} SomeNewest(deals: map<nat, Deal>, ids: set<nat>) returns (id: nat)
    requires ids != {} && forall o :: o in ids ==> o in deals
    ensures Newest(deals, ids, id)
  {
    id :| id in ids;
    if ids != {id} {
      var rest := SomeNewest(deals, ids - {id});
      if deals[id].updated < deals[rest].updated {
        id := rest;
      }
    }
  }

  /**
   The deal that the order puts first: live if any is, then flagged if any such is, then with the newest message, and
   last the most recently updated.
   */
  lemma ForemostMeans(deals: map<nat, Deal>, ids: set<nat>, id: nat, o: nat)
    requires (forall i :: i in ids ==> i in deals) && Foremost(deals, ids, id) && o in ids
    ensures var d, e := deals[id], deals[o];
            && (d.paused || d.takeover ==> e.paused || e.takeover)
            && (Resting(e) == Resting(d) && e.active ==> d.active)
            && (Resting(e) == Resting(d) && e.active == d.active && e.lastMessage.Some? ==>
                  d.lastMessage.Some? && e.lastMessage.value <= d.lastMessage.value)
            && (Resting(e) == Resting(d) && e.active == d.active && e.lastMessage == d.lastMessage ==>
                  e.updated <= d.updated)
  {
    assert Ahead(deals[id], deals[o]);
  }

  lemma RestingLast(deals: map<nat, Deal>, ids: set<nat>, id: nat)
    requires (forall o :: o in ids ==> o in deals) && Foremost(deals, ids, id)
    ensures Resting(deals[id]) ==> forall o :: o in ids ==> Resting(deals[o])
  {
    assert forall o :: o in ids ==> Ahead(deals[id], deals[o]);
  }

  // --- what routing may answer

  ghost predicate Live(t: Tables, chat: int, id: nat) { id in OpenDeals(t, chat) && !Resting(t.deals[id]) }

  /** No flagged deal answers: there is none, or a newest one is resting. */
  ghost predicate FlagSilent(t: Tables, chat: int) {
    Flagged(t, chat) == {} || exists f :: Newest(t.deals, Flagged(t, chat), f) && Resting(t.deals[f])
  }

  ghost predicate PinSilent(t: Tables, chat: int) {
    PinnedFor(t, chat).Some? ==> !Live(t, chat, PinnedFor(t, chat).value)
  }

  /**
   The pinned deal that the lookup may give: the newest flagged one, else the client's own, as far as they are live.
   */
  ghost predicate LookupGives(t: Tables, chat: int, id: nat) {
    && Live(t, chat, id)
    && (Newest(t.deals, Flagged(t, chat), id) || (FlagSilent(t, chat) && PinnedFor(t, chat) == Some(id)))
  }

  ghost predicate LookupSilent(t: Tables, chat: int) { FlagSilent(t, chat) && PinSilent(t, chat) }

  /** The open deal that an inbound message of the chat may be given. */
  ghost predicate MayRoute(t: Tables, chat: int, id: nat) {
    LookupGives(t, chat, id) || (LookupSilent(t, chat) && Foremost(t.deals, OpenDeals(t, chat), id))
  }

  /** The next message of the chat can only be given this deal. */
  ghost predicate Settled(t: Tables, chat: int, id: nat) {
    id in OpenDeals(t, chat) && forall o :: MayRoute(t, chat, o) ==> o == id
  }

  ghost predicate ActiveUnique(t: Tables) {
    forall chat, a, b :: a in Flagged(t, chat) && b in Flagged(t, chat) ==> a == b
  }

  /** Clears the flag of the chat's other open deals and sets this one's. */
  function Pin(deals: map<nat, Deal>, id: nat, chat: Option<int>, now: nat): map<nat, Deal>
    requires id in deals
  {
    var cleared := map o | o in deals ::
        if o != id && chat.Some? && OpenIn(deals[o], chat.value) && deals[o].active
        then deals[o].(active := false, updated := now) else deals[o];
    cleared[id := deals[id].(active := true, updated := now)]
  }

  lemma PinFlags(t: Tables, id: nat, now: nat, chat: int)
    requires id in t.deals
    ensures var p := t.(deals := Pin(t.deals, id, t.deals[id].chat, now));
            && OpenDeals(p, chat) == OpenDeals(t, chat)
            && Flagged(p, chat) == (if t.deals[id].chat == Some(chat)
                                    then (if Terminal(t.deals[id].status) then {} else {id}) else Flagged(t, chat))
            && forall o :: o in t.deals ==> Resting(p.deals[o]) == Resting(t.deals[o])
  {
  }

  lemma PinKeepsUnique(t: Tables, id: nat, now: nat, pins: map<nat, nat>)
    requires ActiveUnique(t) && id in t.deals
    ensures ActiveUnique(t.(deals := Pin(t.deals, id, t.deals[id].chat, now), pins := pins))
  {
    var p := t.(deals := Pin(t.deals, id, t.deals[id].chat, now), pins := pins);
    forall chat, a, b | a in Flagged(p, chat) && b in Flagged(p, chat)
      ensures a == b
    {
      PinFlags(t, id, now, chat);
      assert Flagged(p, chat) == Flagged(p.(pins := t.pins), chat);
    }
  }

  /** Once a deal is the chat's only flagged one and the client's pin, if any, is it too, routing is settled on it. */
  lemma PinnedSettles(t: Tables, chat: int, id: nat)
    requires id in OpenDeals(t, chat) && Flagged(t, chat) == {id}
    requires Resting(t.deals[id]) ==> forall o :: o in OpenDeals(t, chat) ==> Resting(t.deals[o])
    ensures Settled(t, chat, id)
  {
    forall o | MayRoute(t, chat, o)
      ensures o == id
    {
      assert Newest(t.deals, Flagged(t, chat), id);
      if Resting(t.deals[id]) {
        assert !Live(t, chat, o);
      }
    }
  }

  /** What the lookup gives, it gives again. */
  lemma LookupSettles(t: Tables, chat: int, id: nat)
    requires ActiveUnique(t) && LookupGives(t, chat, id)
    ensures Settled(t, chat, id)
  {
    forall o | MayRoute(t, chat, o)
      ensures o == id
    {
      assert PinnedFor(t, chat) == Some(id) ==> !PinSilent(t, chat);
    }
  }

  /**
   What ties the chat to a deal whose row was read with the given flag: that flag, the client's pin past resting flagged
   deals, or, for a chat without a pin, only that no other deal is flagged.
   */
  ghost predicate Anchored(t: Tables, chat: int, id: nat, flag: bool) {
    || (flag && Flagged(t, chat) == {id})
    || (PinnedFor(t, chat) == Some(id) && forall f :: f in Flagged(t, chat) && f != id ==> Resting(t.deals[f]))
    || (PinnedFor(t, chat).None? && Flagged(t, chat) <= {id})
  }

  /**
   The chat sits on the deal whose row was read: routing is settled on it and stays so whichever flag the turn writes
   back, the one that was read or the present one.
   */
  ghost predicate Sits(t: Tables, chat: int, id: nat, row: Deal) {
    && id in OpenDeals(t, chat) && Settled(t, chat, id)
    && Anchored(t, chat, id, row.active) && Anchored(t, chat, id, t.deals[id].active)
    && (if Resting(t.deals[id])
        then Flagged(t, chat) == {id} && forall o :: o in OpenDeals(t, chat) ==> Resting(t.deals[o])
        else LookupGives(t, chat, id))
  }

  /** The row after a client turn: the message is recorded and the metadata is written back as it was read. */
  function AfterTurn(d: Deal, flag: bool, status: Status, paused: bool, now: nat): Deal {
    d.(status := status, paused := paused, active := flag, lastMessage := Some(now), updated := now)
  }

  lemma TurnFlags(t: Tables, chat: int, id: nat, flag: bool, status: Status, paused: bool, now: nat)
    requires id in OpenDeals(t, chat) && !Terminal(status)
    ensures var n := t.(deals := t.deals[id := AfterTurn(t.deals[id], flag, status, paused, now)]);
            && Flagged(n, chat) == (if flag then Flagged(t, chat) + {id} else Flagged(t, chat) - {id})
            && OpenDeals(n, chat) == OpenDeals(t, chat)
  {
  }

  /**
   Routing survives the turn, although the turn writes back the metadata it read and so may wipe the pin that was set
   meanwhile: the chat stays on the deal as long as the turn leaves it open and live.
   */
  lemma TurnKeepsRouting(t: Tables, chat: int, id: nat, flag: bool, status: Status, paused: bool, now: nat)
    requires ActiveUnique(t) && id in OpenDeals(t, chat) && Anchored(t, chat, id, flag)
    requires !Terminal(status) && !paused && !t.deals[id].takeover
    requires forall o :: o in OpenDeals(t, chat) && o != id ==> Recency(t.deals[o].lastMessage) < now
    ensures Settled(t.(deals := t.deals[id := AfterTurn(t.deals[id], flag, status, paused, now)]), chat, id)
  {
    var n := t.(deals := t.deals[id := AfterTurn(t.deals[id], flag, status, paused, now)]);
    TurnFlags(t, chat, id, flag, status, paused, now);
    forall o | MayRoute(n, chat, o)
      ensures o == id
    {
      assert Live(n, chat, id);
      if flag && Flagged(t, chat) == {id} {
        assert Newest(n.deals, Flagged(n, chat), id);
      } else if PinnedFor(t, chat) == Some(id) {
        assert forall f :: f in Flagged(n, chat) && f != id ==> Resting(n.deals[f]);
        assert PinnedFor(n, chat) == Some(id) && !PinSilent(n, chat);
        assert LookupGives(n, chat, o);
      } else {
        assert Flagged(n, chat) <= {id} && PinnedFor(n, chat).None?;
        if flag {
          assert Newest(n.deals, Flagged(n, chat), id);
        } else if !LookupGives(n, chat, o) {
          assert Foremost(n.deals, OpenDeals(n, chat), o) && Ahead(n.deals[o], n.deals[id]);
        }
      }
    }
  }

  /**
   Reopening a closed deal keeps the flags single exactly when it is unflagged or its chat has no other flagged deal.
   */
  lemma ReopenExactly(t: Tables, id: nat, status: Status)
    requires ActiveUnique(t) && id in t.deals && Terminal(t.deals[id].status) && !Terminal(status)
    ensures var d := t.deals[id];
            ActiveUnique(t.(deals := t.deals[id := d.(status := status)]))
            <==> (d.active && d.chat.Some? ==> Flagged(t, d.chat.value) == {})
  {
    var d := t.deals[id];
    var n := t.(deals := t.deals[id := d.(status := status)]);
    forall chat: int
      ensures Flagged(n, chat) == if d.chat == Some(chat) && d.active then Flagged(t, chat) + {id} else Flagged(t, chat)
    {
    }
    if d.active && d.chat.Some? && Flagged(t, d.chat.value) != {} {
      var o :| o in Flagged(t, d.chat.value);
      assert o in Flagged(n, d.chat.value) && id in Flagged(n, d.chat.value) && o != id;
    }
  }

  /** Equal but for the flag, the client and the time of the last update. */
  predicate SameCard(d: Deal, e: Deal) {
    && d.chat == e.chat && d.status == e.status && d.paused == e.paused && d.takeover == e.takeover
    && d.lastMessage == e.lastMessage
  }

  function Linked(d: Deal, client: Option<nat>, now: nat): Deal {
    if client.Some? && d.client.None? then d.(client := client, updated := now) else d
  }

  lemma LinkKeepsLookup(t: Tables, chat: int, id: nat, client: Option<nat>, now: nat)
    requires LookupGives(t, chat, id) && ActiveUnique(t)
    ensures var n := t.(deals := t.deals[id := Linked(t.deals[id], client, now)]);
            ActiveUnique(n) && Sits(n, chat, id, n.deals[id])
  {
    var n := t.(deals := t.deals[id := Linked(t.deals[id], client, now)]);
    assert forall c :: Flagged(n, c) == Flagged(t, c);
    assert Flagged(t, chat) == {} || exists f :: Flagged(t, chat) == {f} by {
      if f :| f in Flagged(t, chat) {
        assert Flagged(t, chat) == {f};
      }
    }
    assert Newest(t.deals, Flagged(t, chat), id) ==> Newest(n.deals, Flagged(n, chat), id);
    assert FlagSilent(t, chat) ==> FlagSilent(n, chat) by {
      if f :| Newest(t.deals, Flagged(t, chat), f) && Resting(t.deals[f]) {
        assert Newest(n.deals, Flagged(n, chat), f) && Resting(n.deals[f]);
      }
    }
    LookupSettles(n, chat, id);
  }

  lemma PinSettles(t: Tables, chat: int, id: nat, now: nat, pins: map<nat, nat>, row: Deal)
    requires ActiveUnique(t) && id in OpenDeals(t, chat)
    requires Resting(t.deals[id]) ==> forall o :: o in OpenDeals(t, chat) ==> Resting(t.deals[o])
    requires chat in t.clients ==> t.clients[chat] in pins && pins[t.clients[chat]] == id
    ensures var n := t.(deals := Pin(t.deals, id, Some(chat), now), pins := pins);
            ActiveUnique(n) && Sits(n, chat, id, row)
  {
    var n := t.(deals := Pin(t.deals, id, Some(chat), now), pins := pins);
    PinKeepsUnique(t, id, now, pins);
    PinFlags(t, id, now, chat);
    assert Flagged(n, chat) == {id} && OpenDeals(n, chat) == OpenDeals(t, chat);
    PinnedSettles(n, chat, id);
    assert Newest(n.deals, Flagged(n, chat), id);
  }

  /** A deal keeps its client, and one without gets the chat's. */
  function RoutedClient(t: Tables, chat: int, id: nat): Option<nat> {
    if id in t.deals && t.deals[id].client.Some? then t.deals[id].client
    else if chat in t.clients then Some(t.clients[chat]) else None
  }

  /**
   The chat is routed to the deal: the tables have changed in nothing but flags, pins, links and the deal itself, and if
   flags were single, they still are and the chat is settled on the deal. The row was read before the pin.
   */
  ghost predicate Routed(t: Tables, n: Tables, chat: int, id: nat, row: Deal) {
    && n.clients == t.clients && n.deals.Keys == t.deals.Keys + {id}
    && id in OpenDeals(n, chat) && SameCard(row, n.deals[id])
    && (row.active ==> id in t.deals && t.deals[id].active && n.deals[id].active)
    && row.client == n.deals[id].client == RoutedClient(t, chat, id)
    && (id !in t.deals ==> row.status == Intake && !Resting(row) && row.lastMessage.None?)
    && (forall o :: o in t.deals ==> SameCard(n.deals[o], t.deals[o]))
    && (ActiveUnique(t) ==> ActiveUnique(n) && Sits(n, chat, id, row))
  }

  // --- serial runs

  /**
   What a turn makes of its deal: the status and the pause at its end. The row is either written back as it was read
   before the pin or read again, as after a hard block or after binding a client that was found late.
   */
  datatype Turn = Turn(client: Option<nat>, reread: bool, status: Status, paused: bool)

  /** A resting deal only keeps the message. */
  function Received(d: Deal, row: Deal, turn: Turn, now: nat): Deal {
    if Resting(row) then d.(lastMessage := Some(now))
    else if turn.reread then
      AfterTurn(if turn.client.Some? then d.(client := turn.client) else d, d.active, turn.status, turn.paused, now)
    else AfterTurn(d, row.active, turn.status, turn.paused, now)
  }

  /** A message of the chat has been given the deal: a new one only where none was open. */
  ghost predicate Arrives(t: Tables, n: Tables, chat: int, id: nat, row: Deal) {
    && (if OpenDeals(t, chat) == {} then id !in t.deals else MayRoute(t, chat, id))
    && Routed(t, n, chat, id, row)
  }

  datatype Step =
    | Message(chat: int, turn: Turn)
    /** A message that turns out to be a second order: its turn is on a fresh deal. `found` is a client found late. */
    | Order(chat: int, found: Option<nat>, status: Status, paused: bool)
    /** A message that names its deal. */
    | Directed(id: nat, turn: Turn)
    | SetActive(id: nat)
    | Staff(id: nat, status: Status, paused: bool, takeover: bool)
    | Bind(id: nat, client: nat)

  /**
   One step of a run: when, the deal the message was routed to and its row as read, the deal of the turn, the tables.
   */
  datatype Visit = Visit(now: nat, id: nat, row: Deal, got: nat, before: Tables, routed: Tables, left: Tables)

  ghost function Unrouted(now: nat, before: Tables, left: Tables): Visit {
    Visit(now, 0, Deal(None, None, Intake, false, false, false, None, 0), 0, before, before, left)
  }

  /** The step gives a closed deal an open status. */
  predicate Reopens(step: Step, t: Tables) {
    match step
    case Staff(id, status, _, _) => id in t.deals && Terminal(t.deals[id].status) && !Terminal(status)
    case Directed(id, turn) =>
      id in t.deals && Terminal(t.deals[id].status) && !Terminal(turn.status) && !Resting(t.deals[id])
    case _ => false
  }

  function Put(t: Tables, id: nat, d: Deal): Tables { t.(deals := t.deals[id := d]) }

  /** A deal once a client was linked to it. */
  function Bound(d: Deal, client: Option<nat>, now: nat): Deal {
    if client.Some? && d.client != client then d.(client := client, updated := now) else d
  }

  /** The fresh deal of a second order, after its turn. */
  function Ordered(chat: int, client: Option<nat>, status: Status, paused: bool, now: nat): Deal {
    AfterTurn(Deal(Some(chat), client, Intake, false, false, false, None, now), false, status, paused, now)
  }

  /** The pin of the deal and of its client. */
  function Pinned(t: Tables, id: nat, now: nat): Tables
    requires id in t.deals
  {
    t.(deals := Pin(t.deals, id, t.deals[id].chat, now),
       pins := if t.deals[id].client.Some? then t.pins[t.deals[id].client.value := id] else t.pins)
  }

  /** What one step does to the tables. */
  ghost predicate Does(step: Step, v: Visit) {
    match step
    case Message(chat, turn) =>
      && Arrives(v.before, v.routed, chat, v.id, v.row)
      && v.left == Put(v.routed, v.id, Received(v.routed.deals[v.id], v.row, turn, v.now))
    case Order(chat, client, status, paused) =>
      && Arrives(v.before, v.routed, chat, v.id, v.row)
      && (if Resting(v.row) then v.left == Put(v.routed, v.id, v.routed.deals[v.id].(lastMessage := Some(v.now)))
          else
            var bound := Bound(v.routed.deals[v.id], client, v.now);
            v.got !in v.routed.deals
            && v.left == Put(Put(v.routed, v.id, bound), v.got, Ordered(chat, bound.client, status, paused, v.now)))
    case Directed(id, turn) =>
      if id !in v.before.deals then v.left == v.before
      else
        && v.routed == Pinned(v.before, id, v.now) && v.row == v.before.deals[id]
        && v.left == Put(v.routed, id, Received(v.routed.deals[id], v.row, turn, v.now))
    case SetActive(id) => v.left == if id in v.before.deals then Pinned(v.before, id, v.now) else v.before
    case Staff(id, status, paused, takeover) =>
      v.left == if id in v.before.deals
                then Put(v.before, id, v.before.deals[id].(status := status, paused := paused, takeover := takeover,
                                                           updated := v.now))
                else v.before
    case Bind(id, client) =>
      v.left == if id in v.before.deals then Put(v.before, id, Bound(v.before.deals[id], Some(client), v.now))
                else v.before
  }

  /** Where the step leaves the chat whose message it takes, or whose deal it pins. */
  ghost predicate Leaves(step: Step, v: Visit) {
    match step
    case Message(chat, _) =>
      Settled(v.routed, chat, v.id) && (Resting(v.row) || Live(v.left, chat, v.id) ==> Settled(v.left, chat, v.id))
    case Order(chat, _, _, _) => Settled(v.routed, chat, v.id) && Settled(v.left, chat, v.id)
    case Directed(id, turn) =>
      forall chat ::
        Live(v.before, chat, id) && Live(v.left, chat, id)
        && (turn.reread || v.row.active || chat !in v.before.clients
            || v.row.client == Some(v.before.clients[chat])) ==>
          Settled(v.left, chat, id)
    case SetActive(id) => forall chat :: Live(v.before, chat, id) ==> Settled(v.left, chat, id)
    case Staff(_, _, _, _) => true
    case Bind(_, _) => forall chat, o :: LookupGives(v.before, chat, o) ==> Settled(v.left, chat, o)
  }

  ghost predicate Fits(step: Step, v: Visit) {
    Does(step, v) && (ActiveUnique(v.before) ==> Leaves(step, v) && (Reopens(step, v.before) || ActiveUnique(v.left)))
  }

  ghost predicate Stamped(t: Tables, now: nat) {
    forall o :: o in t.deals ==> Recency(t.deals[o].lastMessage) < now
  }

  lemma BindFlags(t: Tables, id: nat, client: Option<nat>, now: nat)
    requires id in t.deals
    ensures var n := Put(t, id, t.deals[id].(client := client, updated := now));
            && (forall c :: Flagged(n, c) == Flagged(t, c) && OpenDeals(n, c) == OpenDeals(t, c))
            && (ActiveUnique(t) ==> ActiveUnique(n))
            && (forall c, o, flag :: Anchored(t, c, o, flag) && o in t.deals ==> Anchored(n, c, o, flag))
  {
    var n := Put(t, id, t.deals[id].(client := client, updated := now));
    assert forall c :: Flagged(n, c) == Flagged(t, c) && OpenDeals(n, c) == OpenDeals(t, c);
  }

  lemma BoundFlags(t: Tables, id: nat, client: Option<nat>, now: nat)
    requires id in t.deals
    ensures var n := Put(t, id, Bound(t.deals[id], client, now));
            && (forall c :: Flagged(n, c) == Flagged(t, c) && OpenDeals(n, c) == OpenDeals(t, c))
            && (ActiveUnique(t) ==> ActiveUnique(n))
  {
    if client.Some? && t.deals[id].client != client {
      BindFlags(t, id, client, now);
    } else {
      assert Put(t, id, t.deals[id]) == t;
    }
  }

  lemma SplitStamps(t: Tables, id: nat, client: Option<nat>, now: nat)
    requires id in t.deals
    ensures Stamped(t, now) ==>
              forall chat, got, found, status, paused ::
                Stamped(Put(Put(t, id, Bound(t.deals[id], client, now)), got,
                            Ordered(chat, found, status, paused, now)), now + 1)
  {
  }

  lemma BoundStays(deals: map<nat, Deal>, id: nat, client: Option<nat>, now: nat)
    requires id in deals
    ensures Bound(deals[id], client, now).lastMessage == deals[id].lastMessage
    ensures client.None? ==> deals[id := Bound(deals[id], client, now)] == deals
  {
    assert deals[id := deals[id]] == deals;
  }

  /** A second order, with or without a client found late, leaves the chat where it was. */
  lemma OrderKeeps(t: Tables, chat: int, id: nat, client: Option<nat>, got: nat,
                   status: Status, paused: bool, now: nat)
    requires ActiveUnique(t) && LookupGives(t, chat, id) && id in t.deals && got !in t.deals
    ensures var bound := Bound(t.deals[id], client, now);
            var n := Put(Put(t, id, bound), got, Ordered(chat, bound.client, status, paused, now));
            ActiveUnique(n) && Settled(n, chat, id)
  {
    var m := Put(t, id, Bound(t.deals[id], client, now));
    BindKeepsRouting(t, id, client, now);
    hide LookupGives, Settled, ActiveUnique;
    FreshKeepsRouting(m, got, Ordered(chat, Bound(t.deals[id], client, now).client, status, paused, now));
  }

  lemma BindKeepsRouting(t: Tables, id: nat, client: Option<nat>, now: nat)
    requires id in t.deals && ActiveUnique(t)
    ensures var n := Put(t, id, Bound(t.deals[id], client, now));
            ActiveUnique(n)
            && forall chat, o :: LookupGives(t, chat, o) ==> LookupGives(n, chat, o) && Settled(n, chat, o)
  {
    var n := Put(t, id, Bound(t.deals[id], client, now));
    BoundFlags(t, id, client, now);
    forall chat, o | LookupGives(t, chat, o)
      ensures LookupGives(n, chat, o) && Settled(n, chat, o)
    {
      assert FlagSilent(t, chat) ==> FlagSilent(n, chat) by {
        if f :| Newest(t.deals, Flagged(t, chat), f) && Resting(t.deals[f]) {
          assert f in Flagged(n, chat) && forall g :: g in Flagged(n, chat) ==> g == f;
          assert Newest(n.deals, Flagged(n, chat), f) && Resting(n.deals[f]);
        }
      }
      assert Newest(t.deals, Flagged(t, chat), o) ==> Newest(n.deals, Flagged(n, chat), o);
      LookupSettles(n, chat, o);
    }
  }

  lemma NoteKeepsRouting(t: Tables, chat: int, id: nat, row: Deal, now: nat)
    requires ActiveUnique(t) && Sits(t, chat, id, row) && Resting(t.deals[id])
    ensures var n := Put(t, id, t.deals[id].(lastMessage := Some(now))); ActiveUnique(n) && Settled(n, chat, id)
  {
    var n := Put(t, id, t.deals[id].(lastMessage := Some(now)));
    assert forall c :: Flagged(n, c) == Flagged(t, c) && OpenDeals(n, c) == OpenDeals(t, c);
    PinnedSettles(n, chat, id);
  }

  lemma TurnKeepsUnique(t: Tables, id: nat, flag: bool, status: Status, paused: bool, now: nat)
    requires ActiveUnique(t) && id in t.deals && (flag ==> t.deals[id].active)
    requires Terminal(t.deals[id].status) ==> Terminal(status)
    ensures ActiveUnique(Put(t, id, AfterTurn(t.deals[id], flag, status, paused, now)))
  {
    var n := Put(t, id, AfterTurn(t.deals[id], flag, status, paused, now));
    assert forall chat :: Flagged(n, chat) <= Flagged(t, chat);
  }

  /** The message and its turn keep flags single, and keep the chat on the deal as long as it stays live. */
  lemma ReceiveKeeps(t: Tables, chat: int, id: nat, row: Deal, turn: Turn, now: nat)
    requires ActiveUnique(t) && Sits(t, chat, id, row) && SameCard(row, t.deals[id])
             && (row.active ==> t.deals[id].active)
    requires Stamped(t, now)
    ensures var n := Put(t, id, Received(t.deals[id], row, turn, now));
            ActiveUnique(n) && (Resting(row) || Live(n, chat, id) ==> Settled(n, chat, id))
  {
    if Resting(row) {
      NoteKeepsRouting(t, chat, id, row, now);
    } else {
      TurnReceived(t, chat, id, row, turn, now);
    }
  }

  /** What a turn makes of its deal, as a link and then the write. */
  lemma BoundThenTurned(t: Tables, id: nat, row: Deal, turn: Turn, now: nat)
    requires id in t.deals && !Resting(row)
    ensures var flag := if turn.reread then t.deals[id].active else row.active;
            var client := if turn.reread && turn.client.Some? then turn.client else t.deals[id].client;
            var m := Put(t, id, t.deals[id].(client := client, updated := now));
            Put(t, id, Received(t.deals[id], row, turn, now))
            == Put(m, id, AfterTurn(m.deals[id], flag, turn.status, turn.paused, now))
  {
  }

  lemma TurnReceived(t: Tables, chat: int, id: nat, row: Deal, turn: Turn, now: nat)
    requires ActiveUnique(t) && id in OpenDeals(t, chat) && Stamped(t, now)
    requires !Resting(row) && SameCard(row, t.deals[id]) && (row.active ==> t.deals[id].active)
    ensures var n := Put(t, id, Received(t.deals[id], row, turn, now));
            ActiveUnique(n)
            && (Anchored(t, chat, id, if turn.reread then t.deals[id].active else row.active) && Live(n, chat, id) ==>
                  Settled(n, chat, id))
  {
    var n := Put(t, id, Received(t.deals[id], row, turn, now));
    var flag := if turn.reread then t.deals[id].active else row.active;
    var client := if turn.reread && turn.client.Some? then turn.client else t.deals[id].client;
    var m := Put(t, id, t.deals[id].(client := client, updated := now));
    BindFlags(t, id, client, now);
    BoundThenTurned(t, id, row, turn, now);
    hide Settled, OpenDeals, Received, AfterTurn;
    TurnKeepsUnique(m, id, flag, turn.status, turn.paused, now);
    if Anchored(t, chat, id, flag) && Live(n, chat, id) {
      assert !Terminal(turn.status) && !turn.paused && !m.deals[id].takeover by {
        LiveMeans(n, chat, id);
      }
      TurnKeepsRouting(m, chat, id, flag, turn.status, turn.paused, now);
    }
  }

  lemma ReceivedKeepsUnique(t: Tables, id: nat, row: Deal, turn: Turn, now: nat)
    requires ActiveUnique(t) && id in t.deals && (row.active ==> t.deals[id].active)
    requires Terminal(t.deals[id].status) ==> Terminal(turn.status) || Resting(row)
    ensures ActiveUnique(Put(t, id, Received(t.deals[id], row, turn, now)))
  {
    var n := Put(t, id, Received(t.deals[id], row, turn, now));
    assert forall chat :: Flagged(n, chat) <= Flagged(t, chat);
  }

  /** A message that names a live deal moves its chat there, if the flag or the client's pin outlasts the turn. */
  lemma DirectedKeeps(t: Tables, id: nat, turn: Turn, now: nat)
    requires ActiveUnique(t) && id in t.deals && Stamped(t, now)
    ensures var row, p := t.deals[id], Pinned(t, id, now);
            var n := Put(p, id, Received(p.deals[id], row, turn, now));
            && (Reopens(Directed(id, turn), t) || ActiveUnique(n))
            && forall chat ::
                 Live(t, chat, id) && Live(n, chat, id)
                 && (turn.reread || row.active || chat !in t.clients || row.client == Some(t.clients[chat])) ==>
                   Settled(n, chat, id)
  {
    var row, p := t.deals[id], Pinned(t, id, now);
    var n := Put(p, id, Received(p.deals[id], row, turn, now));
    PinMoves(t, id, now);
    assert Stamped(p, now);
    if !Reopens(Directed(id, turn), t) {
      ReceivedKeepsUnique(p, id, row, turn, now);
    }
    forall chat |
      Live(t, chat, id) && Live(n, chat, id)
      && (turn.reread || row.active || chat !in t.clients || row.client == Some(t.clients[chat]))
      ensures Settled(n, chat, id)
    {
      assert Flagged(p, chat) == {id};
      LiveMeans(t, chat, id);
      assert Anchored(p, chat, id, if turn.reread then p.deals[id].active else row.active);
      hide Settled, Anchored, Flagged;
      TurnReceived(p, chat, id, row, turn, now);
    }
  }

  lemma LiveMeans(t: Tables, chat: int, id: nat)
    requires Live(t, chat, id)
    ensures id in t.deals && OpenIn(t.deals[id], chat) && !Resting(t.deals[id])
  {
  }

  /** Pinning a live deal moves its chat to it. */
  lemma PinMoves(t: Tables, id: nat, now: nat)
    requires ActiveUnique(t) && id in t.deals
    ensures var n := Pinned(t, id, now);
            ActiveUnique(n)
            && forall chat :: Live(t, chat, id) ==>
                 Flagged(n, chat) == {id} && Live(n, chat, id) && Settled(n, chat, id)
  {
    var n := Pinned(t, id, now);
    PinKeepsUnique(t, id, now, n.pins);
    forall chat | Live(t, chat, id)
      ensures Flagged(n, chat) == {id} && Live(n, chat, id) && Settled(n, chat, id)
    {
      PinFlags(t, id, now, chat);
      assert Flagged(n, chat) == {id} && OpenDeals(n, chat) == OpenDeals(t, chat);
      PinnedSettles(n, chat, id);
    }
  }

  class Store {
    var deals: map<nat, Deal>
    var pins: map<nat, nat>
    var clients: map<int, nat>
    var now: nat
    var nextId: nat

    function Snapshot(): Tables
      reads this
    {
      Tables(deals, pins, clients)
    }

    ghost predicate Valid()
      reads this
    {
      forall id :: id in deals ==> id < nextId
    }

    constructor (clients: map<int, nat>)
      ensures Valid() && Snapshot() == Tables(map[], map[], clients) && ActiveUnique(Snapshot())
    {
      deals, pins, now, nextId := map[], map[], 0, 0;
      this.clients := clients;
    }

    /** The deal pinned for the chat: its newest flagged one, then the client's own, resting ones passed over. */
    method LookupActiveDeal(chat: int) returns (found: Option<nat>)
      ensures match found
              case Some(id) => LookupGives(Snapshot(), chat, id)
              case None => LookupSilent(Snapshot(), chat)
      ensures found.Some? && found != PinnedFor(Snapshot(), chat) ==>
                deals[found.value].active
                && forall o :: o in deals && OpenIn(deals[o], chat) && deals[o].active ==>
                     deals[o].updated <= deals[found.value].updated
    {
      ghost var t := Snapshot();
      var candidates: seq<nat> := [];
      var pinned := PinnedFor(Snapshot(), chat);
      if pinned.Some? {
        candidates := [pinned.value];
      }
      var flagged := Flagged(Snapshot(), chat);
      if flagged != {} {
        ghost var some := SomeNewest(deals, flagged);
        var f :| f in flagged && Newest(deals, flagged, f);
        candidates := [f] + candidates;
      }
      for i := 0 to |candidates|
        invariant forall j :: 0 <= j < i ==> !Live(t, chat, candidates[j])
      {
        var id := candidates[i];
        if id in deals && OpenIn(deals[id], chat) && !Resting(deals[id]) {
          if pinned != Some(id) {
            assert i == 0 && flagged != {} && Newest(deals, flagged, id);
            forall o | o in deals && OpenIn(deals[o], chat) && deals[o].active
              ensures deals[o].updated <= deals[id].updated
            {
              assert o in flagged;
            }
          }
          assert i == 1 ==> Newest(t.deals, Flagged(t, chat), candidates[0]) && Resting(t.deals[candidates[0]]);
          return Some(id);
        }
      }
      assert flagged != {} ==> Newest(t.deals, Flagged(t, chat), candidates[0]) && Resting(t.deals[candidates[0]]);
      assert pinned.Some? ==> !Live(t, chat, candidates[|candidates| - 1]);
      return None;
    }

    method LinkDealClient(id: nat, client: nat)
      requires id in deals
      modifies this`deals
      ensures deals == old(deals)[id := Bound(old(deals[id]), Some(client), now)]
    {
      if deals[id].client != Some(client) {
        deals := deals[id := deals[id].(client := Some(client), updated := now)];
      } else {
        assert deals == deals[id := deals[id]];
      }
    }

    /** A chat given explicitly is expected to be the deal's own. */
    method SetActiveDeal(id: nat, client: Option<nat>)
      modifies this`deals, this`pins
      ensures id !in old(deals) ==> deals == old(deals) && pins == old(pins)
      ensures id in old(deals) ==>
                && deals == Pin(old(deals), id, old(deals[id].chat), now)
                && pins == match (if client.Some? then client else old(deals[id].client))
                           case Some(c) => old(pins)[c := id]
                           case None => old(pins)
    {
      if id !in deals {
        return;
      }
      var owner := if client.Some? then client else deals[id].client;
      deals := Pin(deals, id, deals[id].chat, now);
      if owner.Some? {
        pins := pins[owner.value := id];
      }
    }

    method Insert(chat: Option<int>, client: Option<nat>) returns (id: nat)
      requires Valid()
      modifies this`deals, this`nextId
      ensures Valid() && id == old(nextId) && id !in old(deals)
      ensures deals == old(deals)[id := Deal(chat, client, Intake, false, false, false, None, now)]
    {
      id := nextId;
      deals := deals[id := Deal(chat, client, Intake, false, false, false, None, now)];
      nextId := nextId + 1;
    }

    /** Links the client to a deal that has none. */
    method Link(id: nat, client: Option<nat>)
      requires id in deals
      modifies this`deals
      ensures deals == old(deals)[id := Linked(old(deals[id]), client, now)]
    {
      if client.Some? && deals[id].client.None? {
        LinkDealClient(id, client.value);
      }
    }

    /** One of the first open deals in the order of preference. */
    method FindForemost(chat: int) returns (id: nat)
      requires OpenDeals(Snapshot(), chat) != {} && LookupSilent(Snapshot(), chat)
      ensures MayRoute(Snapshot(), chat, id) && id in OpenDeals(Snapshot(), chat)
      ensures Resting(deals[id]) ==> forall o :: o in OpenDeals(Snapshot(), chat) ==> Resting(deals[o])
    {
      var open := OpenDeals(Snapshot(), chat);
      ghost var some := SomeForemost(deals, open);
      id :| id in open && Foremost(deals, open, id);
      RestingLast(deals, open, id);
    }

    method LinkAndPin(chat: int, client: Option<nat>, id: nat) returns (row: Deal)
      requires Valid() && id in OpenDeals(Snapshot(), chat)
      requires Resting(deals[id]) ==> forall o :: o in OpenDeals(Snapshot(), chat) ==> Resting(deals[o])
      requires client == if chat in clients then Some(clients[chat]) else None
      modifies this`deals, this`pins
      ensures Valid() && Routed(old(Snapshot()), Snapshot(), chat, id, row)
    {
      ghost var t := Snapshot();
      Link(id, client);
      row := deals[id];
      hide Routed;
      SetActiveDeal(id, client);
      PinRoutes(t, chat, id, row, now, pins);
    }

    method RouteToNew(chat: int, client: Option<nat>) returns (id: nat, row: Deal)
      requires Valid() && OpenDeals(Snapshot(), chat) == {}
      requires client == if chat in clients then Some(clients[chat]) else None
      modifies this`deals, this`pins, this`nextId
      ensures Valid() && id !in old(deals)
      ensures Routed(old(Snapshot()), Snapshot(), chat, id, row)
    {
      ghost var t := Snapshot();
      id := Insert(Some(chat), client);
      row := deals[id];
      hide Routed;
      SetActiveDeal(id, client);
      PinRoutes(t, chat, id, row, now, pins);
    }

    method RouteToActive(chat: int, client: Option<nat>, id: nat) returns (row: Deal)
      requires Valid() && LookupGives(Snapshot(), chat, id)
      requires client == if chat in clients then Some(clients[chat]) else None
      modifies this`deals
      ensures Valid() && MayRoute(old(Snapshot()), chat, id) && id in old(deals)
      ensures Routed(old(Snapshot()), Snapshot(), chat, id, row)
    {
      ghost var t := Snapshot();
      LookupIsOpen(t, chat, id);
      if ActiveUnique(t) {
        LinkKeepsLookup(t, chat, id, client, now);
      }
      hide LookupGives, Sits, ActiveUnique, MayRoute;
      Link(id, client);
      row := deals[id];
    }

    /**
     The deal for a message of the chat, with its row as it was read, before any pin. A deal is created only when none
     of the chat is open. If at most one deal per chat was flagged, that is kept and the chat is settled: the next call
     can only give the same deal, even when every open deal is resting.
     */
    method GetOrCreateDeal(chat: int) returns (id: nat, row: Deal)
      requires Valid()
      modifies this`deals, this`pins, this`nextId
      ensures Valid()
      ensures if OpenDeals(old(Snapshot()), chat) == {} then id !in old(deals)
              else id in old(deals) && MayRoute(old(Snapshot()), chat, id)
      ensures id !in old(deals) <==>
                forall o :: o in old(deals) && old(deals)[o].chat == Some(chat) ==>
                  old(deals)[o].status in {ClosedWon, ClosedLost, Cancelled}
      ensures row.chat == Some(chat) && row.status !in {ClosedWon, ClosedLost, Cancelled}
      ensures Routed(old(Snapshot()), Snapshot(), chat, id, row)
    {
      OpenMeans(Snapshot(), chat);
      var client := if chat in clients then Some(clients[chat]) else None;
      var active := LookupActiveDeal(chat);
      if active.Some? {
        id := active.value;
        LookupIsOpen(Snapshot(), chat, id);
      }
      hide MayRoute, LookupGives, LookupSilent, Resting, Routed;
      if active.Some? {
        row := RouteToActive(chat, client, id);
      } else if OpenDeals(Snapshot(), chat) != {} {
        id := FindForemost(chat);
        row := LinkAndPin(chat, client, id);
      } else {
        id, row := RouteToNew(chat, client);
      }
    }

    /** A second order of the chat's client: inserted without a flag or a pin, so the chat stays where it was. */
    method CreateFreshDeal(chat: Option<int>, client: Option<nat>) returns (id: nat)
      requires Valid()
      modifies this`deals, this`nextId
      ensures Valid() && id !in old(deals)
      ensures deals == old(deals)[id := Deal(chat, client, Intake, false, false, false, None, now)]
      ensures old(ActiveUnique(Snapshot())) ==>
                ActiveUnique(Snapshot())
                && forall c, o :: LookupGives(old(Snapshot()), c, o) ==> Settled(Snapshot(), c, o)
    {
      id := Insert(chat, client);
      if old(ActiveUnique(Snapshot())) {
        FreshKeepsRouting(old(Snapshot()), id, deals[id]);
      }
    }

    /** What a client turn does to its deal: the message, then the fields with the metadata written back as read. */
    method ClientTurn(id: nat, read: Deal, status: Status, paused: bool)
      requires id in deals
      modifies this`deals
      ensures deals == old(deals)[id := AfterTurn(old(deals[id]), read.active, status, paused, now)]
      ensures deals[id] == old(deals[id]).(status := status, paused := paused, active := read.active,
                                           lastMessage := Some(now), updated := now)
      ensures (old(ActiveUnique(Snapshot())) && (read.active ==> old(deals[id].active))
               && (Terminal(old(deals[id].status)) ==> Terminal(status))) ==> ActiveUnique(Snapshot())
    {
      deals := deals[id := deals[id].(lastMessage := Some(now))];
      deals := deals[id := deals[id].(status := status, paused := paused, active := read.active, updated := now)];
      if (read.active ==> old(deals[id].active)) && (Terminal(old(deals[id].status)) ==> Terminal(status)) {
        assert forall chat :: Flagged(Snapshot(), chat) <= Flagged(old(Snapshot()), chat);
      }
    }

    method StaffPatch(id: nat, status: Status, paused: bool, takeover: bool)
      requires id in deals
      modifies this`deals
      ensures deals == old(deals)[id := old(deals[id]).(status := status, paused := paused, takeover := takeover,
                                                        updated := now)]
      ensures old(ActiveUnique(Snapshot())) && (Terminal(old(deals[id].status)) ==> Terminal(status)) ==>
                ActiveUnique(Snapshot())
    {
      deals := deals[id := deals[id].(status := status, paused := paused, takeover := takeover, updated := now)];
      if Terminal(old(deals[id].status)) ==> Terminal(status) {
        assert forall chat :: Flagged(Snapshot(), chat) <= Flagged(old(Snapshot()), chat);
      }
    }

    method Tick()
      modifies this`now
      ensures now == old(now) + 1
    {
      now := now + 1;
    }

    /** The message and its turn, on the deal whose row was read as given. */
    method Receive(id: nat, row: Deal, turn: Turn)
      requires id in deals
      modifies this`deals
      ensures deals == old(deals)[id := Received(old(deals[id]), row, turn, now)]
      ensures old(Stamped(Snapshot(), now)) ==> Stamped(Snapshot(), now + 1)
    {
      if Resting(row) {
        deals := deals[id := deals[id].(lastMessage := Some(now))];
        return;
      }
      var read := row;
      if turn.reread {
        if turn.client.Some? {
          LinkDealClient(id, turn.client.value);
        }
        read := deals[id];
      }
      ClientTurn(id, read, turn.status, turn.paused);
    }

    method TakeMessage(chat: int, turn: Turn) returns (id: nat, row: Deal, ghost routed: Tables)
      requires Valid() && Stamped(Snapshot(), now)
      modifies this`deals, this`pins, this`nextId
      ensures Valid() && Stamped(Snapshot(), now + 1) && Arrives(old(Snapshot()), routed, chat, id, row)
      ensures Snapshot() == Put(routed, id, Received(routed.deals[id], row, turn, now))
      ensures old(ActiveUnique(Snapshot())) ==>
                && ActiveUnique(Snapshot()) && Settled(routed, chat, id)
                && (Resting(row) || Live(Snapshot(), chat, id) ==> Settled(Snapshot(), chat, id))
    {
      id, row := GetOrCreateDeal(chat);
      routed := Snapshot();
      StampedOn(old(Snapshot()), routed, chat, id, row, now);
      if old(ActiveUnique(Snapshot())) {
        ReceiveKeeps(routed, chat, id, row, turn, now);
      }
      hide Routed, MayRoute, Settled, ActiveUnique, Live, Received;
      Receive(id, row, turn);
    }

    /** Links the client that was found late, if any, and opens the second order's deal for its turn. */
    method SplitOff(chat: int, id: nat, client: Option<nat>, status: Status, paused: bool) returns (got: nat)
      requires Valid() && id in deals
      modifies this`deals, this`nextId
      ensures Valid() && got !in old(deals) && (old(Stamped(Snapshot(), now)) ==> Stamped(Snapshot(), now + 1))
      ensures var bound := Bound(old(deals[id]), client, now);
              Snapshot() == Put(Put(old(Snapshot()), id, bound), got, Ordered(chat, bound.client, status, paused, now))
    {
      SplitStamps(Snapshot(), id, client, now);
      BoundStays(deals, id, client, now);
      hide ActiveUnique, Bound, Stamped;
      if client.Some? {
        LinkDealClient(id, client.value);
      }
      got := Insert(Some(chat), deals[id].client);
      ClientTurn(got, deals[got], status, paused);
      assert deals[got] == Ordered(chat, Bound(old(deals[id]), client, now).client, status, paused, now);
    }

    method TakeOrder(chat: int, client: Option<nat>, status: Status, paused: bool)
      returns (id: nat, row: Deal, got: nat, ghost routed: Tables)
      requires Valid() && Stamped(Snapshot(), now)
      modifies this`deals, this`pins, this`nextId
      ensures Valid() && Stamped(Snapshot(), now + 1) && Arrives(old(Snapshot()), routed, chat, id, row)
      ensures if Resting(row) then Snapshot() == Put(routed, id, routed.deals[id].(lastMessage := Some(now)))
              else
                var bound := Bound(routed.deals[id], client, now);
                got !in routed.deals
                && Snapshot() == Put(Put(routed, id, bound), got, Ordered(chat, bound.client, status, paused, now))
      ensures old(ActiveUnique(Snapshot())) ==>
                ActiveUnique(Snapshot()) && Settled(routed, chat, id) && Settled(Snapshot(), chat, id)
    {
      id, row := GetOrCreateDeal(chat);
      routed := Snapshot();
      StampedOn(old(Snapshot()), routed, chat, id, row, now);
      ArrivedSits(old(Snapshot()), routed, chat, id, row);
      hide Routed, MayRoute, Settled, ActiveUnique, Sits, LookupGives, Ordered, Bound;
      if Resting(row) {
        got := id;
        if old(ActiveUnique(Snapshot())) {
          NoteKeepsRouting(routed, chat, id, row, now);
        }
        Receive(id, row, Turn(None, false, status, paused));
      } else {
        got := SplitOff(chat, id, client, status, paused);
        if old(ActiveUnique(Snapshot())) {
          OrderKeeps(routed, chat, id, client, got, status, paused, now);
        }
      }
    }

    /** A message that names its deal pins it first; the row was read before that. */
    method TakeDirected(id: nat, turn: Turn) returns (row: Deal, ghost routed: Tables)
      requires Valid() && Stamped(Snapshot(), now) && id in deals
      modifies this`deals, this`pins
      ensures Valid() && Stamped(Snapshot(), now + 1) && row == old(deals[id])
              && routed == Pinned(old(Snapshot()), id, now)
      ensures Snapshot() == Put(routed, id, Received(routed.deals[id], row, turn, now))
    {
      row := deals[id];
      SetActiveDeal(id, None);
      routed := Snapshot();
      Receive(id, row, turn);
    }

    /** A step of staff or of the system on a deal that is there. */
    method Manage(step: Step)
      requires Valid() && !step.Message? && !step.Order? && !step.Directed?
      modifies this`deals, this`pins
      ensures Valid() && (old(Stamped(Snapshot(), now)) ==> Stamped(Snapshot(), now))
      ensures Fits(step, Unrouted(now, old(Snapshot()), Snapshot()))
    {
      ghost var t := Snapshot();
      hide Settled, LookupGives, ActiveUnique;
      match step
      case SetActive(id) =>
        SetActiveDeal(id, None);
        if id in t.deals && ActiveUnique(t) {
          PinMoves(t, id, now);
        }
      case Staff(id, status, paused, takeover) =>
        if id in deals {
          StaffPatch(id, status, paused, takeover);
        }
      case Bind(id, client) =>
        if id in deals {
          LinkDealClient(id, client);
          assert Snapshot() == Put(t, id, Bound(t.deals[id], Some(client), now));
          hide Bound;
          if ActiveUnique(t) {
            BindKeepsRouting(t, id, Some(client), now);
          }
        } else if ActiveUnique(t) {
          forall chat, o | LookupGives(t, chat, o)
            ensures Settled(t, chat, o)
          {
            LookupSettles(t, chat, o);
          }
        }
    }

    /** One step of a run, recorded. */
    method Do(step: Step) returns (ghost v: Visit)
      requires Valid() && Stamped(Snapshot(), now)
      modifies this`deals, this`pins, this`nextId
      ensures Valid() && v.before == old(Snapshot()) && v.left == Snapshot() && v.now == now
      ensures Stamped(v.left, now + 1) && Fits(step, v)
    {
      ghost var t := Snapshot();
      hide Routed, MayRoute, Settled, ActiveUnique, Received, Ordered, Bound, Pin, LookupGives;
      if step.Message? {
        var id, row;
        ghost var routed;
        id, row, routed := TakeMessage(step.chat, step.turn);
        v := Visit(now, id, row, id, t, routed, Snapshot());
      } else if step.Order? {
        var id, row, got;
        ghost var routed;
        id, row, got, routed := TakeOrder(step.chat, step.found, step.status, step.paused);
        v := Visit(now, id, row, got, t, routed, Snapshot());
      } else if step.Directed? && step.id in deals {
        var row;
        ghost var routed;
        row, routed := TakeDirected(step.id, step.turn);
        v := Visit(now, step.id, row, step.id, t, routed, Snapshot());
        if ActiveUnique(t) {
          DirectedKeeps(t, step.id, step.turn, now);
        }
      } else if step.Directed? {
        v := Unrouted(now, t, t);
      } else {
        Manage(step);
        v := Unrouted(now, t, Snapshot());
      }
    }

    /** Two calls in a row give the same deal. */
    method RouteTwice(chat: int) returns (first: nat, second: nat)
      requires Valid() && ActiveUnique(Snapshot())
      modifies this`deals, this`pins, this`nextId
      ensures Valid() && ActiveUnique(Snapshot()) && first == second
    {
      var row, again;
      first, row := GetOrCreateDeal(chat);
      assert first in OpenDeals(Snapshot(), chat);
      hide OpenDeals, ActiveUnique, MayRoute, Anchored;
      second, again := GetOrCreateDeal(chat);
    }

    /**
     A message, the turn it leads to, and the next message: both messages go to one deal if the turn leaves it live.
     */
    method RouteAroundTurn(chat: int, turn: Turn) returns (first: nat, second: nat)
      requires Valid() && ActiveUnique(Snapshot()) && Stamped(Snapshot(), now)
      modifies this`deals, this`pins, this`nextId
      ensures Valid() && first in deals
      ensures !Terminal(turn.status) && !turn.paused && !deals[first].takeover ==> first == second
    {
      var row, again;
      ghost var routed;
      first, row, routed := TakeMessage(chat, turn);
      ghost var left := Snapshot();
      if !Terminal(turn.status) && !turn.paused && !deals[first].takeover {
        TurnLeavesLive(routed, chat, first, row, turn, now);
        SettledIsOpen(left, chat, first);
      }
      hide *;
      second, again := GetOrCreateDeal(chat);
    }
  }

  lemma TurnLeavesLive(t: Tables, chat: int, id: nat, row: Deal, turn: Turn, now: nat)
    requires id in OpenDeals(t, chat) && !Terminal(turn.status) && !turn.paused
    requires !Received(t.deals[id], row, turn, now).takeover && SameCard(row, t.deals[id])
    ensures Resting(row) || Live(Put(t, id, Received(t.deals[id], row, turn, now)), chat, id)
  {
  }

  lemma SettledIsOpen(t: Tables, chat: int, id: nat)
    requires Settled(t, chat, id)
    ensures OpenDeals(t, chat) != {} && forall o :: MayRoute(t, chat, o) ==> o == id
  {
    assert id in OpenDeals(t, chat);
  }

  lemma OneStepMore(steps: seq<Step>, visits: seq<Visit>, v: Visit, first: Tables)
    requires |visits| < |steps| && Chained(first, visits, v.before) && Fits(steps[|visits|], v)
    requires visits == [] || visits[|visits| - 1].now < v.now
    ensures Chained(first, visits + [v], v.left) && Does(steps[|visits|], v)
    ensures KeepsClosed(steps[..|visits| + 1], visits + [v]) ==>
              && KeepsClosed(steps[..|visits|], visits)
              && (ActiveUnique(v.before) ==> ActiveUnique(v.left) && Leaves(steps[|visits|], v))
  {
    hide ActiveUnique, Leaves, Does, Reopens;
    var n := |visits|;
    if KeepsClosed(steps[..n + 1], visits + [v]) {
      forall k | 0 <= k < n
        ensures !Reopens(steps[..n][k], visits[k].before)
      {
        assert (visits + [v])[k] == visits[k] && steps[..n + 1][k] == steps[k];
      }
      assert (visits + [v])[n] == v && steps[..n + 1][n] == steps[n];
    }
  }

  lemma ArrivedSits(t: Tables, n: Tables, chat: int, id: nat, row: Deal)
    requires Routed(t, n, chat, id, row)
    ensures id in n.deals && Resting(row) == Resting(n.deals[id])
    ensures ActiveUnique(t) ==>
              && ActiveUnique(n) && Sits(n, chat, id, row) && Settled(n, chat, id)
              && (!Resting(row) ==> LookupGives(n, chat, id))
  {
  }

  lemma StampedOn(t: Tables, n: Tables, chat: int, id: nat, row: Deal, now: nat)
    requires Stamped(t, now) && Routed(t, n, chat, id, row)
    ensures Stamped(n, now)
  {
  }

  lemma TwoFlagged(t: Tables, chat: int, a: nat, b: nat)
    requires a != b && a in t.deals && b in t.deals && t.deals[a].active && t.deals[b].active
    requires OpenIn(t.deals[a], chat) && OpenIn(t.deals[b], chat)
    ensures !ActiveUnique(t)
  {
    assert a in Flagged(t, chat) && b in Flagged(t, chat);
  }

  /** Each step starts from the tables the one before left, at a later moment. */
  ghost predicate Chained(first: Tables, visits: seq<Visit>, last: Tables) {
    && (if visits == [] then first == last else visits[0].before == first && visits[|visits| - 1].left == last)
    && forall k :: 0 < k < |visits| ==> visits[k].before == visits[k - 1].left && visits[k - 1].now < visits[k].now
  }

  /** No step of the run gives a closed deal an open status. */
  ghost predicate KeepsClosed(steps: seq<Step>, visits: seq<Visit>)
    requires |steps| == |visits|
  {
    forall k :: 0 <= k < |steps| ==> !Reopens(steps[k], visits[k].before)
  }

  /**
   Any series of messages, second orders, pins and staff steps. While closed deals stay closed, no chat ever has two
   flagged open deals, and a chat is settled on the deal of each of its messages: when it is routed, and after the turn
   as long as that leaves the deal live.
   */
  method Serve(clients: map<int, nat>, steps: seq<Step>) returns (store: Store, ghost visits: seq<Visit>)
    ensures fresh(store) && store.Valid() && |visits| == |steps|
    ensures Chained(Tables(map[], map[], clients), visits, store.Snapshot())
    ensures forall k :: 0 <= k < |steps| ==> Does(steps[k], visits[k])
    ensures KeepsClosed(steps, visits) ==>
              && ActiveUnique(store.Snapshot())
              && forall k :: 0 <= k < |steps| ==> ActiveUnique(visits[k].before) && Leaves(steps[k], visits[k])
  {
    store := new Store(clients);
    visits := [];
    hide ActiveUnique, Fits, Does, Leaves, Reopens;
    for i := 0 to |steps|
      invariant fresh(store) && store.Valid() && |visits| == i && Stamped(store.Snapshot(), store.now + 1)
      invariant Chained(Tables(map[], map[], clients), visits, store.Snapshot())
      invariant visits == [] || visits[i - 1].now <= store.now
      invariant forall k :: 0 <= k < i ==> Does(steps[k], visits[k])
      invariant KeepsClosed(steps[..i], visits) ==>
                  && ActiveUnique(store.Snapshot())
                  && forall k :: 0 <= k < i ==> ActiveUnique(visits[k].before) && Leaves(steps[k], visits[k])
    {
      store.Tick();
      hide Stamped;
      ghost var v := store.Do(steps[i]);
      OneStepMore(steps, visits, v, Tables(map[], map[], clients));
      visits := visits + [v];
    }
    assert steps[..|steps|] == steps;
  }

  predicate OfChat(step: Step, chat: int) { (step.Message? || step.Order?) && step.chat == chat }

  /**
   The chat's next message cannot go elsewhere: a second order never moves it, a turn only by closing or resting the
   deal.
   */
  ghost predicate Stays(step: Step, v: Visit, chat: int) {
    OfChat(step, chat) && (step.Order? || Resting(v.row) || Live(v.left, chat, v.id))
  }

  /**
   In every run, messages of a chat one after another are all routed to one deal for as long as turns leave it live.
   */
  lemma {:induction false} ChatStays(steps: seq<Step>, visits: seq<Visit>, first: Tables, last: Tables, chat: int,
                                     i: nat, j: nat)
    requires |steps| == |visits| && i <= j < |steps| && Chained(first, visits, last)
    requires forall k :: 0 <= k < |steps| ==> Does(steps[k], visits[k]) && Leaves(steps[k], visits[k])
    requires OfChat(steps[j], chat) && forall k :: i <= k < j ==> Stays(steps[k], visits[k], chat)
    ensures visits[j].id == visits[i].id
  {
    if i < j {
      ChatStays(steps, visits, first, last, chat, i, j - 1);
      assert Stays(steps[j - 1], visits[j - 1], chat) && Leaves(steps[j - 1], visits[j - 1]);
      var id, t := visits[j - 1].id, visits[j].before;
      assert Settled(t, chat, id);
      assert Does(steps[j], visits[j]) && Arrives(t, visits[j].routed, chat, visits[j].id, visits[j].row);
      hide MayRoute, Routed;
      assert id in OpenDeals(t, chat);
    }
  }

  /** A chat whose flagged deal was closed, and its next one flagged. */
  method CloseAndReplace(chat: int) returns (store: Store, first: nat, second: nat)
    ensures fresh(store) && store.Valid() && first in store.deals && second in store.deals && first != second
    ensures store.deals[first].active && store.deals[first].chat == Some(chat) && Terminal(store.deals[first].status)
    ensures store.deals[second].active && OpenIn(store.deals[second], chat)
  {
    store := new Store(map[]);
    hide ActiveUnique, LookupGives, Settled;
    first := store.CreateFreshDeal(Some(chat), None);
    store.SetActiveDeal(first, None);
    store.StaffPatch(first, ClosedLost, false, false);
    assert store.deals[first].active && store.deals[first].chat == Some(chat);
    second := store.CreateFreshDeal(Some(chat), None);
    store.SetActiveDeal(second, None);
  }

  /** A closed deal keeps its flag; reopened beside the chat's next deal it makes two. */
  method ReopenedDealsCollide(chat: int) returns (store: Store)
    ensures fresh(store) && store.Valid() && !ActiveUnique(store.Snapshot())
  {
    var first, second;
    store, first, second := CloseAndReplace(chat);
    hide ActiveUnique;
    store.StaffPatch(first, Intake, false, false);
    TwoFlagged(store.Snapshot(), chat, first, second);
  }

  lemma FreshKeepsRouting(t: Tables, id: nat, d: Deal)
    requires ActiveUnique(t) && id !in t.deals && !d.active
    ensures var n := t.(deals := t.deals[id := d]);
            ActiveUnique(n) && forall chat, o :: LookupGives(t, chat, o) ==> Settled(n, chat, o)
  {
    var n := t.(deals := t.deals[id := d]);
    assert forall chat :: Flagged(n, chat) == Flagged(t, chat);
    forall chat, o | LookupGives(t, chat, o)
      ensures Settled(n, chat, o)
    {
      assert FlagSilent(t, chat) ==> FlagSilent(n, chat) by {
        if f :| Newest(t.deals, Flagged(t, chat), f) && Resting(t.deals[f]) {
          assert Newest(n.deals, Flagged(n, chat), f) && Resting(n.deals[f]);
        }
      }
      assert Newest(t.deals, Flagged(t, chat), o) ==> Newest(n.deals, Flagged(n, chat), o);
      LookupSettles(n, chat, o);
    }
  }

  lemma LookupIsOpen(t: Tables, chat: int, id: nat)
    requires LookupGives(t, chat, id)
    ensures id in OpenDeals(t, chat) && MayRoute(t, chat, id)
  {
  }

  /** Putting the row in, changed at most by a link, and then pinning it routes the chat to it. */
  lemma PinRoutes(t: Tables, chat: int, id: nat, row: Deal, now: nat, pins: map<nat, nat>)
    requires OpenIn(row, chat) && (Resting(row) ==> forall o :: o in OpenDeals(t, chat) ==> Resting(t.deals[o]))
    requires if id in t.deals then SameCard(row, t.deals[id]) && row.active == t.deals[id].active
             else !row.active && row.status == Intake && !Resting(row) && row.lastMessage.None?
    requires row.client == RoutedClient(t, chat, id)
    requires chat in t.clients ==> t.clients[chat] in pins && pins[t.clients[chat]] == id
    ensures Routed(t, t.(deals := Pin(t.deals[id := row], id, Some(chat), now), pins := pins), chat, id, row)
  {
    var m := t.(deals := t.deals[id := row]);
    PutKeepsFlags(t, id, row);
    PinSame(t, chat, id, row, now);
    hide Sits, Pin, ActiveUnique, SameCard, OpenDeals;
    if ActiveUnique(t) {
      PinSettles(m, chat, id, now, pins, row);
    }
  }

  lemma PutKeepsFlags(t: Tables, id: nat, row: Deal)
    requires if id in t.deals then SameCard(row, t.deals[id]) && row.active == t.deals[id].active else !row.active
    ensures var m := t.(deals := t.deals[id := row]);
            && (ActiveUnique(t) ==> ActiveUnique(m))
            && (forall chat, o :: o in OpenDeals(m, chat) && o != id ==> o in OpenDeals(t, chat))
  {
    var m := t.(deals := t.deals[id := row]);
    assert forall c :: Flagged(m, c) == Flagged(t, c);
  }

  lemma PinSame(t: Tables, chat: int, id: nat, row: Deal, now: nat)
    requires OpenIn(row, chat)
    requires if id in t.deals then SameCard(row, t.deals[id]) && row.active == t.deals[id].active else !row.active
    ensures var p := Pin(t.deals[id := row], id, Some(chat), now);
            && p.Keys == t.deals.Keys + {id} && SameCard(row, p[id]) && p[id].client == row.client
            && OpenIn(p[id], chat) && p[id].active
            && forall o :: o in t.deals ==> SameCard(p[o], t.deals[o])
  {
  }
}
