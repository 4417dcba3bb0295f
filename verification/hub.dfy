/** `Hub.Run` of ws/hub.go as a step function over one event at a time.
    `live` is the hub's `clients` map; `retired` keeps the clients the hub has
    removed, whose `send` channel it has closed, so that closing can be
    followed over time. A Go panic (closing a closed channel, sending on a
    closed channel) is a step result of `None`. */
module Hub {
  import opened Wrappers
  import opened Entities
  import opened DataKind
  import opened Connection

  type ClientId = nat

  datatype Hub = Hub(live: map<ClientId, Client>, retired: map<ClientId, Client>)

  /** `NewHub`: no client registered. */
  function NewHub(): (h: Hub)
    ensures h.live == map[] && h.retired == map[]
  {
    Hub(map[], map[])
  }

  /** What arrives on the `register`, `unregister` and `broadcast` channels. */
  datatype Event = Register(c: ClientId) | Unregister(c: ClientId) | Broadcast(d: Data)

  /** The recipient filter: an envelope goes to the clients of its recipient,
      and an error envelope to every client. */
  predicate Targets(d: Data, cl: Client) {
    cl.identity.userId == d.userId || d.dataType == ErrorData
  }

  predicate Full(cl: Client) {
    |cl.queue| >= QueueCapacity
  }

  /** The non-blocking send to an open channel: queued when there is room,
      otherwise the channel is closed. */
  function Offered(cl: Client, d: Data): (r: Client)
    ensures r.identity == cl.identity
    ensures !Full(cl) ==> r.queue == cl.queue + [d] && r.closed == cl.closed
    ensures Full(cl) ==> r.queue == cl.queue && r.closed
  {
    if Full(cl) then cl.(closed := true) else cl.(queue := cl.queue + [d])
  }

  /** Offering `d` to the live clients with ids in `s` closes and removes
      client `k`: it is targeted and its queue is full. */
  predicate Dropped(h: Hub, d: Data, s: set<ClientId>, k: ClientId) {
    k in s && k in h.live && Targets(d, h.live[k]) && Full(h.live[k])
  }

  /** The hub after offering `d` to the live clients with ids in `s`: the
      targeted ones with a full queue are closed and removed, the other
      targeted ones get `d` appended, and everyone else is untouched. */
  function Delivered(h: Hub, d: Data, s: set<ClientId>): Hub {
    Hub(
      map k | k in h.live && !Dropped(h, d, s, k) ::
        if k in s && Targets(d, h.live[k]) then Offered(h.live[k], d) else h.live[k],
      map k | k in h.retired.Keys + h.live.Keys && (k in h.retired || Dropped(h, d, s, k)) ::
        if Dropped(h, d, s, k) then Offered(h.live[k], d) else h.retired[k])
  }

  /** Some targeted live client has a closed channel: the send would panic. */
  predicate SendPanics(h: Hub, d: Data) {
    exists c :: c in h.live && Targets(d, h.live[c]) && h.live[c].closed
  }

  /** One iteration of the `for { select { ... } }` loop of `Run`. */
  function Step(h: Hub, e: Event): (r: Option<Hub>)
    // register: an already registered client leaves the hub unchanged
    ensures e.Register? && e.c in h.live ==> r == Some(h)
    ensures e.Register? && e.c !in h.live && e.c !in h.retired ==>
              r == Some(h.(live := h.live[e.c := NewClient()]))
    // unregister: a client that is not registered is a no-op
    ensures e.Unregister? && e.c !in h.live ==> r == Some(h)
    ensures e.Unregister? && e.c in h.live ==>
              (r.None? <==> h.live[e.c].closed) &&
              (r.Some? ==> e.c !in r.value.live && e.c in r.value.retired &&
                           r.value.retired[e.c] == h.live[e.c].(closed := true) &&
                           forall c :: c in h.live && c != e.c ==> c in r.value.live && r.value.live[c] == h.live[c])
    // broadcast
    ensures e.Broadcast? ==> (r.None? <==> SendPanics(h, e.d))
    ensures e.Broadcast? && r.Some? ==> forall c :: c in h.live && !Targets(e.d, h.live[c]) ==>
              c in r.value.live && r.value.live[c] == h.live[c]
    ensures e.Broadcast? && r.Some? ==> forall c :: c in h.live && Targets(e.d, h.live[c]) && !Full(h.live[c]) ==>
              c in r.value.live && r.value.live[c] == h.live[c].(queue := h.live[c].queue + [e.d])
    ensures e.Broadcast? && r.Some? ==> forall c :: c in h.live && Targets(e.d, h.live[c]) && Full(h.live[c]) ==>
              c !in r.value.live && c in r.value.retired && r.value.retired[c] == h.live[c].(closed := true)
    // a removed client that registers again is live once more
    ensures e.Register? && e.c !in h.live && e.c in h.retired ==>
              r == Some(Hub(h.live[e.c := h.retired[e.c]], h.retired - {e.c}))
    // only a register brings in a client id, and only the live clients can be removed
    ensures !e.Register? && r.Some? ==>
              r.value.live.Keys <= h.live.Keys && r.value.retired.Keys <= h.retired.Keys + h.live.Keys
    // nothing ever leaves the record of removed clients except by a register
    ensures !e.Register? && r.Some? ==> forall c :: c in h.retired && c !in h.live ==>
              c in r.value.retired && r.value.retired[c] == h.retired[c]
  {
    match e
    case Register(c) =>
      if c in h.live then Some(h)
      else if c in h.retired then Some(Hub(h.live[c := h.retired[c]], h.retired - {c}))
      else Some(h.(live := h.live[c := NewClient()]))
    case Unregister(c) =>
      if c !in h.live then Some(h)
      else if h.live[c].closed then None
      else Some(Hub(h.live - {c}, h.retired[c := h.live[c].(closed := true)]))
    case Broadcast(d) =>
      if SendPanics(h, d) then None else Some(Delivered(h, d, h.live.Keys))
  }

  /** What the hub keeps true: the two maps are disjoint, every registered
      client's channel is open, every removed client's channel is closed, and
      no queue holds more than its capacity. */
  predicate Inv(h: Hub) {
    && h.live.Keys !! h.retired.Keys
    && (forall c :: c in h.live ==> !h.live[c].closed && |h.live[c].queue| <= QueueCapacity)
    && (forall c :: c in h.retired ==> h.retired[c].closed && |h.retired[c].queue| <= QueueCapacity)
  }

  /** `ServeWs` registers each new client exactly once, right after creating
      it, so a client the hub has removed is never registered again. */
  predicate ValidEvent(h: Hub, e: Event) {
    e.Register? ==> e.c !in h.retired
  }

  lemma NewHubInv()
    ensures Inv(NewHub())
  {
  }

  /** No event panics the hub, and every event keeps the invariant. */
  lemma StepPreservesInv(h: Hub, e: Event)
    requires Inv(h) && ValidEvent(h, e)
    ensures Step(h, e).Some?
    ensures Inv(Step(h, e).value)
  {
    match e
    case Register(c) =>
    case Unregister(c) =>
    case Broadcast(d) =>
      var r := Delivered(h, d, h.live.Keys);
      forall c | c in r.live
        ensures !r.live[c].closed && |r.live[c].queue| <= QueueCapacity
      {
        assert c in h.live;
      }
      forall c | c in r.retired
        ensures r.retired[c].closed && |r.retired[c].queue| <= QueueCapacity
      {
        if c !in h.retired {
          assert c in h.live && Full(h.live[c]);
        }
      }
  }

  /** A channel is closed at most once: once the hub has removed a client,
      that client is never offered data nor closed again. */
  lemma RemovedStaysRemoved(h: Hub, e: Event, c: ClientId)
    requires Inv(h) && ValidEvent(h, e) && c in h.retired
    ensures Step(h, e).Some?
    ensures c !in Step(h, e).value.live
    ensures c in Step(h, e).value.retired && Step(h, e).value.retired[c] == h.retired[c]
  {
    StepPreservesInv(h, e);
  }

  /** The hub after a sequence of events; `None` once some step panics. */
  function Run(h: Hub, events: seq<Event>): (r: Option<Hub>)
    ensures |events| == 0 ==> r == Some(h)
    ensures |events| > 0 && Step(h, events[0]).None? ==> r.None?
    decreases |events|
  {
    if |events| == 0 then Some(h)
    else match Step(h, events[0])
      case None => None
      case Some(h') => Run(h', events[1..])
  }

  /** Every event of the run is one `ServeWs` can produce in the state the
      run has reached. */
  predicate ValidRun(h: Hub, events: seq<Event>)
    decreases |events|
  {
    |events| == 0 ||
    (ValidEvent(h, events[0]) &&
     match Step(h, events[0])
     case None => true
     case Some(h') => ValidRun(h', events[1..]))
  }

  lemma {:induction false} RunPreservesInv(h: Hub, events: seq<Event>)
    requires Inv(h) && ValidRun(h, events)
    ensures Run(h, events).Some? && Inv(Run(h, events).value)
    decreases |events|
  {
    if |events| > 0 {
      StepPreservesInv(h, events[0]);
      RunPreservesInv(Step(h, events[0]).value, events[1..]);
    }
  }

  /** The hub never panics on a run that starts from `NewHub`. */
  lemma NeverPanics(events: seq<Event>)
    requires ValidRun(NewHub(), events)
    ensures Run(NewHub(), events).Some? && Inv(Run(NewHub(), events).value)
  {
    NewHubInv();
    RunPreservesInv(NewHub(), events);
  }

  /** The broadcast loop as Go runs it: `range` over the map in some order,
      each registered client visited once. */
  function BroadcastInOrder(h: Hub, d: Data, order: seq<ClientId>): (r: Option<Hub>)
    ensures |order| == 0 ==> r == Some(h)
    decreases |order|
  {
    if |order| == 0 then Some(h)
    else
      var c := order[0];
      if c !in h.live || !Targets(d, h.live[c]) then BroadcastInOrder(h, d, order[1..])
      else if h.live[c].closed then None
      else BroadcastInOrder(Delivered(h, d, {c}), d, order[1..])
  }

  /** Offering to `c` first and then to the clients in `s` is offering to
      all of them at once. */
  lemma DeliverOneThenRest(h: Hub, d: Data, c: ClientId, s: set<ClientId>)
    requires h.live.Keys !! h.retired.Keys
    requires c in h.live && c !in s
    ensures Delivered(Delivered(h, d, {c}), d, s) == Delivered(h, d, s + {c})
  {
    DeliverOneThenRestLive(h, d, c, s);
    DeliverOneThenRestRetired(h, d, c, s);
  }

  /** The live half of `DeliverOneThenRest`. */
  lemma DeliverOneThenRestLive(h: Hub, d: Data, c: ClientId, s: set<ClientId>)
    requires h.live.Keys !! h.retired.Keys
    requires c in h.live && c !in s
    ensures Delivered(Delivered(h, d, {c}), d, s).live == Delivered(h, d, s + {c}).live
  {
    var h1 := Delivered(h, d, {c});
    var a := Delivered(h1, d, s);
    var b := Delivered(h, d, s + {c});
    forall k ensures (k in a.live <==> k in b.live) && (k in a.live ==> a.live[k] == b.live[k]) {
      if k == c {
        assert Dropped(h, d, {c}, c) <==> Dropped(h, d, s + {c}, c);
      } else if k in h.live {
        assert k in h1.live && h1.live[k] == h.live[k];
        assert Dropped(h1, d, s, k) <==> Dropped(h, d, s + {c}, k);
      }
    }
  }

  /** The retired half of `DeliverOneThenRest`. */
  lemma DeliverOneThenRestRetired(h: Hub, d: Data, c: ClientId, s: set<ClientId>)
    requires h.live.Keys !! h.retired.Keys
    requires c in h.live && c !in s
    ensures Delivered(Delivered(h, d, {c}), d, s).retired == Delivered(h, d, s + {c}).retired
  {
    var h1 := Delivered(h, d, {c});
    var a := Delivered(h1, d, s);
    var b := Delivered(h, d, s + {c});
    forall k ensures (k in a.retired <==> k in b.retired) && (k in a.retired ==> a.retired[k] == b.retired[k]) {
      if k == c {
        assert !Dropped(h1, d, s, c);
        assert Dropped(h, d, {c}, c) <==> Dropped(h, d, s + {c}, c);
      } else if k in h.live {
        assert k !in h.retired && k !in h1.retired;
        assert k in h1.live && h1.live[k] == h.live[k];
        assert Dropped(h1, d, s, k) <==> Dropped(h, d, s + {c}, k);
      } else {
        assert !Dropped(h1, d, s, k) && !Dropped(h, d, s + {c}, k);
        assert k in h1.retired <==> k in h.retired;
      }
    }
  }

  /** The ids an enumeration visits. */
  function Visited(order: seq<ClientId>): (s: set<ClientId>)
    ensures forall i :: 0 <= i < |order| ==> order[i] in s
    ensures forall k :: k in s ==> k in order
  {
    if |order| == 0 then {} else {order[0]} + Visited(order[1..])
  }

  /** An enumeration that visits each id at most once. */
  predicate Distinct(order: seq<ClientId>) {
    forall i, j :: 0 <= i < j < |order| ==> order[i] != order[j]
  }

  /** A client the envelope does not target can be left out of the offer. */
  lemma UntargetedIgnored(h: Hub, d: Data, c: ClientId, s: set<ClientId>)
    requires c in h.live && !Targets(d, h.live[c])
    ensures Delivered(h, d, s + {c}) == Delivered(h, d, s)
  {
    var a := Delivered(h, d, s + {c});
    var b := Delivered(h, d, s);
    forall k ensures Dropped(h, d, s + {c}, k) <==> Dropped(h, d, s, k) {
    }
    assert a.live == b.live;
    assert a.retired == b.retired;
  }

  /** Go leaves the order of `range` over a map unspecified; the result of a
      broadcast does not depend on it. */
  lemma {:induction false} BroadcastOrderIrrelevant(h: Hub, d: Data, order: seq<ClientId>)
    requires Inv(h) && Distinct(order)
    requires forall i :: 0 <= i < |order| ==> order[i] in h.live
    ensures BroadcastInOrder(h, d, order) == Some(Delivered(h, d, Visited(order)))
    decreases |order|
  {
    if |order| == 0 {
      assert Delivered(h, d, {}) == h;
    } else {
      var c, rest := order[0], order[1..];
      assert Distinct(rest) by {
        forall i, j | 0 <= i < j < |rest| ensures rest[i] != rest[j] {
          assert rest[i] == order[i + 1] && rest[j] == order[j + 1];
        }
      }
      assert c !in Visited(rest) by {
        forall i | 0 <= i < |rest| ensures rest[i] != c {
          assert rest[i] == order[i + 1];
        }
      }
      assert Visited(order) == Visited(rest) + {c};
      if !Targets(d, h.live[c]) {
        BroadcastOrderIrrelevant(h, d, rest);
        UntargetedIgnored(h, d, c, Visited(rest));
      } else {
        var h1 := Delivered(h, d, {c});
        DeliveredOneInv(h, d, c);
        forall i | 0 <= i < |rest| ensures rest[i] in h1.live {
          assert rest[i] == order[i + 1];
          assert !Dropped(h, d, {c}, rest[i]);
        }
        BroadcastOrderIrrelevant(h1, d, rest);
        DeliverOneThenRest(h, d, c, Visited(rest));
      }
    }
  }

  /** Whatever order `range` picks, the loop computes the broadcast step. */
  lemma BroadcastLoopIsStep(h: Hub, d: Data, order: seq<ClientId>)
    requires Inv(h) && Distinct(order) && Visited(order) == h.live.Keys
    ensures BroadcastInOrder(h, d, order) == Step(h, Broadcast(d))
  {
    BroadcastOrderIrrelevant(h, d, order);
  }

  lemma DeliveredOneInv(h: Hub, d: Data, c: ClientId)
    requires Inv(h) && c in h.live
    ensures Inv(Delivered(h, d, {c}))
  {
    var r := Delivered(h, d, {c});
    forall k | k in r.retired
      ensures r.retired[k].closed && |r.retired[k].queue| <= QueueCapacity
    {
      if k !in h.retired {
        assert k == c && Full(h.live[c]);
      }
    }
  }

  // ---------------------------------------------------------------------------
  // Routing of connections that have not authenticated
  // ---------------------------------------------------------------------------

  /** As written, every connection that has not authenticated carries the user
      id "-1" and the hub routes on the user id alone, so an envelope addressed
      to "-1" (the thread page such a connection asks for, say) is queued for
      every connection that has not authenticated, not only for the one that
      asked. */
  lemma UnauthenticatedShareDeliveries(h: Hub, a: ClientId, b: ClientId, d: Data)
    requires Inv(h)
    requires a in h.live && b in h.live
    requires h.live[a].identity == Identity(false, UnknownUser) && !Full(h.live[a])
    requires h.live[b].identity == Identity(false, UnknownUser) && !Full(h.live[b])
    requires d.userId == UnknownUser
    ensures Step(h, Broadcast(d)).Some?
    ensures var r := Step(h, Broadcast(d)).value;
            && a in r.live && r.live[a].queue == h.live[a].queue + [d]
            && b in r.live && r.live[b].queue == h.live[b].queue + [d]
  {
    StepPreservesInv(h, Broadcast(d));
  }

  /** The routing the design intends: a connection that has not authenticated
      receives error envelopes only, and an authenticated one is routed to as
      the hub does now. */
  function CorrectedTargets(d: Data, cl: Client): (b: bool)
    ensures !cl.identity.authenticated ==> (b <==> d.dataType == ErrorData)
    ensures cl.identity.authenticated ==> (b <==> Targets(d, cl))
  {
    d.dataType == ErrorData || (cl.identity.authenticated && cl.identity.userId == d.userId)
  }

  /** With the intended routing, an envelope that is not an error never goes
      to two connections unless both have authenticated as its recipient. */
  lemma CorrectedTargetsAuthenticated(d: Data, c1: Client, c2: Client)
    requires d.dataType != ErrorData
    requires CorrectedTargets(d, c1) && CorrectedTargets(d, c2)
    ensures c1.identity == c2.identity == Identity(true, d.userId)
  {
  }
}
