/** The goroutines of ws/client.go and ws/hub.go run together: `ServeWs`
    registers a connection, its reader decodes frames and hands the answers
    to the hub one at a time, the hub fans them out, the writer drains the
    connection's queue, and a failed read unregisters the connection. Each
    event is one step of one goroutine; a goroutine that cannot take its
    step (a reader still handing answers to the hub, a writer with nothing
    to write) leaves the server unchanged. */
module Server {
  import opened Wrappers
  import opened Entities
  import opened Connection
  import opened Repository
  import opened Dispatcher
  import Service
  import Hub

  /** The collaborators the goroutines call and the model does not define. */
  datatype Env = Env(parse: EnvelopeParser, dec: Decoders, co: Service.Collaborators, encode: PayloadEncoder)

  /** The hub, the store, for each connection the answers its reader still
      has to hand to the hub, the id the next connection gets, and the
      connections whose reader, and whose writer, is still running. */
  datatype Server = Server(
    hub: Hub.Hub,
    db: Db,
    outbox: map<Hub.ClientId, seq<Data>>,
    next: Hub.ClientId,
    reading: set<Hub.ClientId>,
    writing: set<Hub.ClientId>)

  function Initial(db: Db): (s: Server)
    ensures s.hub == Hub.NewHub() && s.db == db && s.reading == {} && s.writing == {}
  {
    Server(Hub.NewHub(), db, map[], 0, {}, {})
  }

  datatype Event =
    | Connect
    | Read(c: Hub.ClientId, frame: string, clock: Clock)
    | Deliver(c: Hub.ClientId)
    | Write(c: Hub.ClientId)
    | Hangup(c: Hub.ClientId)

  /** The `*Client` behind an id, whether or not the hub still holds it. */
  function Record(h: Hub.Hub, c: Hub.ClientId): (r: Option<Client>)
    ensures c in h.live ==> r == Some(h.live[c])
    ensures c !in h.live && c !in h.retired ==> r.None?
  {
    if c in h.live then Some(h.live[c])
    else if c in h.retired then Some(h.retired[c])
    else None
  }

  /** The hub with the record of `c` replaced wherever it is kept. */
  function Replace(h: Hub.Hub, c: Hub.ClientId, cl: Client): (r: Hub.Hub)
    ensures r.live.Keys == h.live.Keys && r.retired.Keys == h.retired.Keys
    ensures c in h.live ==> r.live[c] == cl
    ensures forall k :: k in h.live && k != c ==> r.live[k] == h.live[k]
    ensures forall k :: k in h.retired && k != c ==> r.retired[k] == h.retired[k]
    ensures Record(h, c).Some? ==> Record(r, c) == Some(cl)
  {
    if c in h.live then h.(live := h.live[c := cl])
    else if c in h.retired then h.(retired := h.retired[c := cl])
    else h
  }

  /** One step of one goroutine; `None` is a panic. */
  function Step(s: Server, env: Env, e: Event): (r: Option<Server>)
    ensures e.Read? && r.Some? ==> r.value.hub.live.Keys == s.hub.live.Keys
    // a reader's answers reach the hub in the order the dispatcher produced them
    ensures e.Deliver? && e.c in s.outbox && |s.outbox[e.c]| > 0 && r.Some? ==>
              e.c in r.value.outbox && r.value.outbox[e.c] == s.outbox[e.c][1..] &&
              Some(r.value.hub) == Hub.Step(s.hub, Hub.Broadcast(s.outbox[e.c][0]))
    // a writer that has sent its close frame has returned and takes no step
    ensures e.Write? && e.c !in s.writing ==> r == Some(s)
    ensures (e.Write? && e.c in s.writing && Record(s.hub, e.c).Some? &&
             Record(s.hub, e.c).value.queue == [] && Record(s.hub, e.c).value.closed) ==>
              r.Some? && e.c !in r.value.writing
  {
    match e
    case Connect =>
      (match Hub.Step(s.hub, Hub.Register(s.next))
       case None => None
       case Some(h) => Some(Server(h, s.db, s.outbox[s.next := []], s.next + 1, s.reading + {s.next}, s.writing + {s.next})))
    case Read(c, frame, clock) =>
      Some(Reader(s, env, c, frame, clock))
    case Deliver(c) =>
      if c !in s.outbox || s.outbox[c] == [] then Some(s)
      else
        (match Hub.Step(s.hub, Hub.Broadcast(s.outbox[c][0]))
         case None => None
         case Some(h) => Some(s.(hub := h, outbox := s.outbox[c := s.outbox[c][1..]])))
    case Write(c) =>
      Some(Writer(s, env, c))
    case Hangup(c) =>
      if c !in s.reading || c !in s.outbox || s.outbox[c] != [] then Some(s)
      else
        match Hub.Step(s.hub, Hub.Unregister(c))
        case None => None
        case Some(h) => Some(s.(hub := h, reading := s.reading - {c}))
  }

  /** One frame handled by the reader of `c`, once its previous answers have
      all reached the hub: the connection's identity and the store are
      updated and the new answers wait for the hub. */
  function Reader(s: Server, env: Env, c: Hub.ClientId, frame: string, clock: Clock): (r: Server)
    ensures r.hub.live.Keys == s.hub.live.Keys && r.hub.retired.Keys == s.hub.retired.Keys
    ensures r.next == s.next && r.reading == s.reading && r.writing == s.writing
    ensures (c !in s.reading || c !in s.outbox || s.outbox[c] != [] || Record(s.hub, c).None?) ==> r == s
    // otherwise the frame goes to the dispatcher: the connection takes its
    // identity, the store its writes and the connection's pending answers its
    // envelopes; the queue, the closed flag and every other connection are kept
    ensures (c in s.reading && c in s.outbox && s.outbox[c] == [] && Record(s.hub, c).Some?) ==>
              var cl := Record(s.hub, c).value;
              var o := Dispatch(cl.identity, DecodeFrame(frame, env.parse), env.dec, env.co, s.db, clock);
              && r.db == o.db
              && r.outbox == s.outbox[c := o.sent]
              && Record(r.hub, c) == Some(cl.(identity := o.identity))
              && (forall k :: k in s.hub.live && k != c ==> r.hub.live[k] == s.hub.live[k])
              && (forall k :: k in s.hub.retired && k != c ==> r.hub.retired[k] == s.hub.retired[k])
  {
    if c !in s.reading || c !in s.outbox || s.outbox[c] != [] || Record(s.hub, c).None? then s
    else
      var cl := Record(s.hub, c).value;
      var o := Dispatch(cl.identity, DecodeFrame(frame, env.parse), env.dec, env.co, s.db, clock);
      s.(hub := Replace(s.hub, c, cl.(identity := o.identity)), db := o.db, outbox := s.outbox[c := o.sent])
  }

  /** One round of the writer of `c`: it drains the connection's queue and
      nothing else, and returns once it has sent the close frame. */
  function Writer(s: Server, env: Env, c: Hub.ClientId): (r: Server)
    ensures c !in s.writing ==> r == s
    ensures (c in s.writing && Record(s.hub, c).Some? &&
             Record(s.hub, c).value.queue == [] && Record(s.hub, c).value.closed) ==> c !in r.writing
    // only the close frame, sent once the queue is drained and closed, ends the writer
    ensures r.writing == s.writing ||
            (r.writing == s.writing - {c} && Record(s.hub, c).Some? &&
             Record(s.hub, c).value.queue == [] && Record(s.hub, c).value.closed)
    ensures r.(hub := s.hub, writing := s.writing) == s
    ensures r.hub == s.hub || (Record(s.hub, c).Some? && r.hub == Replace(s.hub, c, Record(s.hub, c).value.(queue := [])))
  {
    if c !in s.writing || Record(s.hub, c).None? then s
    else
      match WritePump(Record(s.hub, c).value, env.encode)
      case Blocked => s
      case Wrote(frame, cl) =>
        var writing := if frame.CloseFrame? then s.writing - {c} else s.writing;
        s.(hub := Replace(s.hub, c, cl), writing := writing)
  }

  /** The hub's invariant, and every id the hub knows was handed out by `Connect`. */
  predicate Inv(s: Server) {
    && Hub.Inv(s.hub)
    && (forall c :: c in s.hub.live ==> c < s.next)
    && (forall c :: c in s.hub.retired ==> c < s.next)
  }

  lemma InitialInv(db: Db)
    ensures Inv(Initial(db))
  {
  }

  /** Changing a record's identity, or draining its queue, keeps the hub's invariant. */
  lemma ReplaceKeepsInv(h: Hub.Hub, c: Hub.ClientId, cl: Client)
    requires Hub.Inv(h) && Record(h, c).Some?
    requires cl.closed == Record(h, c).value.closed
    requires |cl.queue| <= |Record(h, c).value.queue|
    ensures Hub.Inv(Replace(h, c, cl))
  {
  }

  /** No goroutine ever panics: no channel is closed twice and the hub never
      sends on a closed channel. */
  lemma StepSafe(s: Server, env: Env, e: Event)
    requires Inv(s)
    ensures Step(s, env, e).Some? && Inv(Step(s, env, e).value)
  {
    match e
    case Connect =>
      Hub.StepPreservesInv(s.hub, Hub.Register(s.next));
    case Read(c, frame, clock) =>
      ReadSafe(s, env, c, frame, clock);
    case Deliver(c) =>
      if c in s.outbox && s.outbox[c] != [] {
        Hub.StepPreservesInv(s.hub, Hub.Broadcast(s.outbox[c][0]));
      }
    case Write(c) =>
      WriteSafe(s, env, c);
    case Hangup(c) =>
      Hub.StepPreservesInv(s.hub, Hub.Unregister(c));
  }

  /** A reader's step keeps the invariant. */
  lemma ReadSafe(s: Server, env: Env, c: Hub.ClientId, frame: string, clock: Clock)
    requires Inv(s)
    ensures Inv(Reader(s, env, c, frame, clock))
  {
    if !(c !in s.reading || c !in s.outbox || s.outbox[c] != [] || Record(s.hub, c).None?) {
      var cl := Record(s.hub, c).value;
      var o := Dispatch(cl.identity, DecodeFrame(frame, env.parse), env.dec, env.co, s.db, clock);
      ReplaceKeepsInv(s.hub, c, cl.(identity := o.identity));
    }
  }

  /** A writer's step keeps the invariant. */
  lemma WriteSafe(s: Server, env: Env, c: Hub.ClientId)
    requires Inv(s)
    ensures Inv(Writer(s, env, c))
  {
    var r := Writer(s, env, c);
    if r.hub != s.hub {
      ReplaceKeepsInv(s.hub, c, Record(s.hub, c).value.(queue := []));
    }
  }

  /** A writer sends at most one close frame: once it has sent one, its next
      step changes nothing. */
  lemma WriterStopsAfterClose(s: Server, env: Env, c: Hub.ClientId)
    requires c in s.writing && Record(s.hub, c).Some?
    requires Record(s.hub, c).value.queue == [] && Record(s.hub, c).value.closed
    ensures Step(s, env, Write(c)).Some?
    ensures var s' := Step(s, env, Write(c)).value;
            Step(s', env, Write(c)) == Some(s')
  {
  }

  function Run(s: Server, env: Env, events: seq<Event>): (r: Option<Server>)
    ensures |events| == 0 ==> r == Some(s)
    decreases |events|
  {
    if |events| == 0 then Some(s)
    else match Step(s, env, events[0])
      case None => None
      case Some(s') => Run(s', env, events[1..])
  }

  /** Every interleaving of the goroutines, from a fresh hub, runs without a panic. */
  lemma {:induction false} RunSafe(s: Server, env: Env, events: seq<Event>)
    requires Inv(s)
    ensures Run(s, env, events).Some? && Inv(Run(s, env, events).value)
    decreases |events|
  {
    if |events| > 0 {
      StepSafe(s, env, events[0]);
      RunSafe(Step(s, env, events[0]).value, env, events[1..]);
    }
  }

  lemma NeverPanics(db: Db, env: Env, events: seq<Event>)
    ensures Run(Initial(db), env, events).Some?
  {
    InitialInv(db);
    RunSafe(Initial(db), env, events);
  }

  /** After a successful `InitData` on a registered connection, the hub
      addresses the connection by the authenticated user id. */
  lemma AuthenticationReachesHub(s: Server, env: Env, c: Hub.ClientId, frame: string, clock: Clock)
    requires c in s.reading && c in s.outbox && s.outbox[c] == [] && c in s.hub.live
    requires Dispatch(s.hub.live[c].identity, DecodeFrame(frame, env.parse), env.dec, env.co, s.db, clock).identity.authenticated
    ensures Step(s, env, Read(c, frame, clock)).Some?
    ensures var id := Dispatch(s.hub.live[c].identity, DecodeFrame(frame, env.parse), env.dec, env.co, s.db, clock).identity;
            Step(s, env, Read(c, frame, clock)).value.hub.live[c].identity == id
  {
  }
}
