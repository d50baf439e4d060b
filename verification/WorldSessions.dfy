/** The world server's tasks (services/world/src/worldserver.rs and services/world/src/world/world.rs) as a transition
    system: one task accepts connections one after the other, one task handles every queued packet, and either may be
    suspended between any two steps. A task that panics takes no further step. */
module WorldSessions {
  import opened Bytes
  import opened HeaderEncryption
  import opened WorldPackets
  import opened WorldFrames
  import opened WorldChannel
  import opened WorldHandler
  import Characters

  type ClientId = u64

  datatype Client = Client(id: ClientId, account: Option<u32>)

  /** `client` is the shared client record, by its place in `World.clients`. */
  datatype Session = Session(clientId: ClientId, client: nat, addons: seq<Addon>, channel: Channel)

  /** `from` records the session that queued the packet; the queue itself knows only the id. */
  datatype Queued = Queued(id: ClientId, packet: ClientPacket, from: nat)

  datatype Acceptor =
    | Listening
    | Connected(id: ClientId)
    | Authenticating(id: ClientId, addons: seq<Addon>, rest: seq<ClientPacket>)
    | Greeting(id: ClientId, session: nat, todo: seq<Message>, held: Option<Outgoing>, rest: seq<ClientPacket>)
    | Piping(id: ClientId, session: nat, rest: seq<ClientPacket>)
    | Closing(id: ClientId)

  datatype Consumer =
    | Waiting
    | Looking(q: Queued)
    | Handling(q: Queued, session: nat, held: Option<Outgoing>, answered: bool)

  /** A packet the handler has dealt with: on which session, with what services, and whether its reply was written. */
  datatype Deed = Deed(q: Queued, session: nat, job: Job, written: bool)

  /** The history of the queue, the character table, and what became of it from its beginning. */
  datatype Log = Log(piped: seq<Queued>, handled: seq<Queued>, origin: Characters.Table, table: Characters.Table, deeds: seq<Deed>)

  /** Every client record and session ever made stays in `clients` and `objects`; `directory` and `published` are the
      two maps. */
  datatype World = World(
    clients: seq<Client>,
    directory: map<ClientId, nat>,
    objects: seq<Session>,
    published: map<ClientId, nat>,
    queue: seq<Queued>,
    acceptor: Acceptor,
    consumer: Consumer,
    log: Log)

  function Boot(origin: Characters.Table): World {
    World([], map[], [], map[], [], Listening, Waiting, Log([], [], origin, origin, []))
  }

  datatype Event =
    | Accept(id: ClientId)
    | FirstRead(packets: seq<ClientPacket>)
    | Authenticate(account: u32, start: Cursor)
    | EncryptGreeting
    | WriteGreeting
    | FailGreeting
    | Publish
    | Pipe
    | ReadMore(packets: seq<ClientPacket>)
    | GiveUp
    | Close
    | TakePacket
    | Lookup
    | Answer(backend: Backend)
    | WriteReply
    | FailReply
    | FinishPacket

  // ---- the accepting task ----

  predicate AcceptorEnabled(w: World, e: Event) {
    var a := w.acceptor;
    match e
    case Accept(_) => a.Listening?
    case FirstRead(packets) => a.Connected? && packets != []
    case Authenticate(_, _) => a.Authenticating? && (a.id in w.directory ==> w.directory[a.id] < |w.clients|)
    case EncryptGreeting => a.Greeting? && a.held.None? && a.todo != [] && Headed(a.todo[0]) && a.session < |w.objects|
    case WriteGreeting => a.Greeting? && a.held.Some? && a.session < |w.objects|
    case FailGreeting => a.Greeting? && a.held.Some? && a.session < |w.objects|
    case Publish => a.Greeting? && a.held.None? && a.todo == [] && a.session < |w.objects|
    case Pipe => a.Piping? && a.rest != [] && a.session < |w.objects|
    case ReadMore(_) => a.Piping? && a.rest == []
    case GiveUp => a.Connected? || a.Authenticating? || a.Piping? || (a.Greeting? && a.held.None?)
    case Close => a.Closing?
    case _ => false
  }

  function SetChannel(objects: seq<Session>, i: nat, ch: Channel): seq<Session>
    requires i < |objects|
  {
    objects[i := objects[i].(channel := ch)]
  }

  /** `handle_auth_session` from the directory lookup on: the errors of a missing or already online client close the
      connection; otherwise the account is set and the session object made, which greets its client. */
  function Authenticated(w: World, account: u32, start: Cursor): World
    requires w.acceptor.Authenticating? && (w.acceptor.id in w.directory ==> w.directory[w.acceptor.id] < |w.clients|)
  {
    var a := w.acceptor;
    if a.id !in w.directory then w.(acceptor := Closing(a.id))
    else
      var c := w.directory[a.id];
      if w.clients[c].account.Some? then w.(acceptor := Closing(a.id))
      else w.(clients := w.clients[c := w.clients[c].(account := Some(account))],
              objects := w.objects + [Session(w.clients[c].id, c, a.addons, Open(start))],
              acceptor := Greeting(a.id, |w.objects|, WorldFrames.Greeting(a.addons), None, a.rest))
  }

  function AcceptorStep(w: World, e: Event): World
    requires AcceptorEnabled(w, e)
  {
    var a := w.acceptor;
    match e
    case Accept(id) =>
      w.(clients := w.clients + [Client(id, None)], directory := w.directory[id := |w.clients|], acceptor := Connected(id))
    case FirstRead(packets) =>
      w.(acceptor := if packets[0].AuthSessionPacket? then Authenticating(a.id, packets[0].session.addons, packets[1..])
                     else Closing(a.id))
    case Authenticate(account, start) => Authenticated(w, account, start)
    case EncryptGreeting =>
      var ch := w.objects[a.session].channel;
      w.(objects := SetChannel(w.objects, a.session, Encrypted(ch)),
         acceptor := a.(todo := a.todo[1..], held := Some(Encrypting(ch, a.todo[0]))))
    case WriteGreeting =>
      w.(objects := SetChannel(w.objects, a.session, Written(w.objects[a.session].channel, a.held.value)),
         acceptor := a.(held := None))
    case FailGreeting =>
      w.(objects := SetChannel(w.objects, a.session, Failed(w.objects[a.session].channel)), acceptor := Closing(a.id))
    case Publish =>
      w.(published := w.published[w.objects[a.session].clientId := a.session], acceptor := Piping(a.id, a.session, a.rest))
    case Pipe =>
      var q := Queued(w.objects[a.session].clientId, a.rest[0], a.session);
      w.(queue := w.queue + [q], log := w.log.(piped := w.log.piped + [q]), acceptor := a.(rest := a.rest[1..]))
    case ReadMore(packets) => w.(acceptor := a.(rest := packets))
    case GiveUp => w.(acceptor := Closing(a.id))
    case Close => w.(directory := w.directory - {a.id}, acceptor := Listening)
  }

  // ---- the packet-handling task ----

  function AccountOf(w: World, session: nat): Option<u32>
    requires session < |w.objects| && w.objects[session].client < |w.clients|
  {
    w.clients[w.objects[session].client].account
  }

  /** The handler has worked on the packet in hand and, if there is a reply, encrypted it. A task whose reply overflows its
      header is not enabled any more. */
  function Answered(w: World, backend: Backend): World
    requires ConsumerEnabled(w, Answer(backend))
  {
    var c := w.consumer;
    var job := Job(AccountOf(w, c.session), c.q.packet, backend);
    var ch, reply := w.objects[c.session].channel, ReplyTo(job.account, w.log.table, job.packet, backend);
    ReplyHeaded(job.account, w.log.table, job.packet, backend);
    w.(log := w.log.(table := TableAfter(job.account, w.log.table, job.packet, backend),
                     deeds := w.log.deeds + [Deed(c.q, c.session, job, false)]),
       objects := if reply.Some? then SetChannel(w.objects, c.session, Encrypted(ch)) else w.objects,
       consumer := c.(held := if reply.Some? then Some(Encrypting(ch, reply.value)) else None, answered := true))
  }

  function LastWritten(deeds: seq<Deed>): seq<Deed>
    requires deeds != []
  {
    deeds[|deeds| - 1 := deeds[|deeds| - 1].(written := true)]
  }

  predicate ConsumerEnabled(w: World, e: Event) {
    var c := w.consumer;
    match e
    case TakePacket => c.Waiting? && w.queue != []
    case Lookup => c.Looking?
    case Answer(backend) =>
      && c.Handling? && c.held.None? && !c.answered && c.session < |w.objects| && w.objects[c.session].client < |w.clients|
      && Answerable(AccountOf(w, c.session), w.log.table, c.q.packet, backend)
    case WriteReply => c.Handling? && c.held.Some? && c.session < |w.objects| && w.log.deeds != []
    case FailReply => c.Handling? && c.held.Some? && c.session < |w.objects|
    case FinishPacket => c.Handling? && c.held.None? && c.answered
    case _ => false
  }

  /** A packet whose id has no session is dropped without a trace. */
  function ConsumerStep(w: World, e: Event): World
    requires ConsumerEnabled(w, e)
  {
    var c := w.consumer;
    match e
    case TakePacket => w.(queue := w.queue[1..], consumer := Looking(w.queue[0]))
    case Lookup =>
      w.(consumer := if c.q.id in w.published then Handling(c.q, w.published[c.q.id], None, false) else Waiting)
    case Answer(backend) => Answered(w, backend)
    case WriteReply =>
      w.(objects := SetChannel(w.objects, c.session, Written(w.objects[c.session].channel, c.held.value)),
         consumer := c.(held := None), log := w.log.(deeds := LastWritten(w.log.deeds)))
    case FailReply =>
      w.(objects := SetChannel(w.objects, c.session, Failed(w.objects[c.session].channel)),
         log := w.log.(handled := w.log.handled + [c.q]), consumer := Waiting)
    case FinishPacket => w.(log := w.log.(handled := w.log.handled + [c.q]), consumer := Waiting)
  }

  // ---- runs ----

  predicate Enabled(w: World, e: Event) {
    AcceptorEnabled(w, e) || ConsumerEnabled(w, e)
  }

  function Step(w: World, e: Event): World
    requires Enabled(w, e)
  {
    if AcceptorEnabled(w, e) then AcceptorStep(w, e) else ConsumerStep(w, e)
  }

  ghost predicate Reaches(before: World, events: seq<Event>, after: World)
    decreases |events|
  {
    if events == [] then after == before
    else Enabled(before, events[0]) && Reaches(Step(before, events[0]), events[1..], after)
  }

  // ---- what every step keeps ----

  /** The session belongs to the client that carries its id, and that client has an account. */
  ghost predicate Owned(clients: seq<Client>, s: Session) {
    s.client < |clients| && clients[s.client].id == s.clientId && clients[s.client].account.Some?
  }

  /** Each session has a client of its own and is published, if at all, under its own id. */
  ghost predicate ObjectsInv(clients: seq<Client>, objects: seq<Session>, published: map<ClientId, nat>) {
    && (forall i :: 0 <= i < |objects| ==> Owned(clients, objects[i]))
    && (forall i, j :: 0 <= i < j < |objects| ==> objects[i].client != objects[j].client)
    && (forall id :: id in published ==> published[id] < |objects| && objects[published[id]].clientId == id)
  }

  /** The session being greeted is out of everyone else's reach. */
  ghost predicate Private(w: World, session: nat) {
    && (forall id :: id in w.published ==> w.published[id] != session)
    && (w.consumer.Handling? ==> w.consumer.session != session)
  }

  ghost predicate AcceptorInv(w: World) {
    match w.acceptor
    case Listening => w.directory == map[]
    case Connected(id) => FreshClient(w, id)
    case Authenticating(id, _, _) => FreshClient(w, id)
    case Greeting(id, session, _, _, _) => AtWork(w, id, session) && Private(w, session)
    case Piping(id, session, _) => AtWork(w, id, session) && id in w.published && w.published[id] == session
    case Closing(id) => w.directory.Keys == {id}
  }

  ghost predicate FreshClient(w: World, id: ClientId) {
    && w.clients != [] && w.clients[|w.clients| - 1] == Client(id, None)
    && w.directory == map[id := |w.clients| - 1]
  }

  ghost predicate AtWork(w: World, id: ClientId, session: nat) {
    session < |w.objects| && w.objects[session].clientId == id && w.directory.Keys == {id}
  }

  function InHand(c: Consumer): seq<Queued> {
    if c.Waiting? then [] else [c.q]
  }

  ghost predicate AllPublished(published: map<ClientId, nat>, qs: seq<Queued>) {
    forall q :: q in qs ==> q.id in published
  }

  ghost predicate QueueInv(w: World) {
    && AllPublished(w.published, w.queue) && AllPublished(w.published, InHand(w.consumer))
    && (w.consumer.Handling? ==> w.consumer.session < |w.objects|)
    && w.log.piped == w.log.handled + InHand(w.consumer) + w.queue
  }

  ghost predicate Inv(w: World) {
    ObjectsInv(w.clients, w.objects, w.published) && AcceptorInv(w) && QueueInv(w)
  }

  // ---- what a step does, without its details ----

  /** Clients and sessions only ever gain. */
  ghost predicate Grew(clients: seq<Client>, objects: seq<Session>, moreClients: seq<Client>,
                       moreObjects: seq<Session>) {
    && |clients| <= |moreClients| && |objects| <= |moreObjects|
    && (forall c :: 0 <= c < |clients| ==>
          moreClients[c].id == clients[c].id && (clients[c].account.Some? ==> moreClients[c] == clients[c]))
    && (forall i :: 0 <= i < |objects| ==>
          && moreObjects[i].clientId == objects[i].clientId && moreObjects[i].client == objects[i].client
          && moreObjects[i].addons == objects[i].addons
          && |objects[i].channel.sent| <= |moreObjects[i].channel.sent|)
  }

  /** A channel that moved on. */
  lemma ChannelGrew(clients: seq<Client>, objects: seq<Session>, i: nat, ch: Channel)
    requires i < |objects| && |objects[i].channel.sent| <= |ch.sent|
    ensures Grew(clients, objects, clients, SetChannel(objects, i, ch))
  {
  }

  lemma AcceptorGrows(w: World, e: Event, v: World)
    requires AcceptorEnabled(w, e) && v == AcceptorStep(w, e)
    ensures Grew(w.clients, w.objects, v.clients, v.objects)
    ensures v.log.origin == w.log.origin && v.log.table == w.log.table && v.log.deeds == w.log.deeds
    ensures v.log.handled == w.log.handled && v.consumer == w.consumer
  {
    if v.objects != w.objects && !e.Authenticate? {
      ChannelGrew(w.clients, w.objects, w.acceptor.session, v.objects[w.acceptor.session].channel);
    }
  }

  lemma ConsumerGrows(w: World, e: Event, v: World)
    requires ConsumerEnabled(w, e) && v == ConsumerStep(w, e)
    ensures v.clients == w.clients && Grew(w.clients, w.objects, v.clients, v.objects) && |v.objects| == |w.objects|
    ensures v.log.origin == w.log.origin && v.published == w.published && v.acceptor == w.acceptor && v.directory == w.directory
    ensures v.log.piped == w.log.piped
  {
    if v.objects != w.objects {
      ChannelGrew(w.clients, w.objects, w.consumer.session, v.objects[w.consumer.session].channel);
    }
  }

  /** Where deeds are done and packets are handled. */
  lemma DeedSessions(w: World, e: Event, v: World)
    requires ConsumerEnabled(w, e) && v == ConsumerStep(w, e)
    ensures |w.log.deeds| <= |v.log.deeds| <= |w.log.deeds| + 1
    ensures forall k :: 0 <= k < |w.log.deeds| ==> v.log.deeds[k].session == w.log.deeds[k].session
    ensures |v.log.deeds| > |w.log.deeds| ==> w.consumer.Handling? && v.log.deeds[|w.log.deeds|].session == w.consumer.session
    ensures v.consumer.Handling? ==>
              if w.consumer.Handling? then v.consumer.session == w.consumer.session
              else w.consumer.Looking? && w.consumer.q.id in w.published && v.consumer.session == w.published[w.consumer.q.id]
  {
  }

  lemma ChannelChange(clients: seq<Client>, objects: seq<Session>, published: map<ClientId, nat>, i: nat, ch: Channel)
    requires ObjectsInv(clients, objects, published) && i < |objects|
    ensures ObjectsInv(clients, SetChannel(objects, i, ch), published)
  {
    forall k | 0 <= k < |objects|
      ensures Owned(clients, SetChannel(objects, i, ch)[k])
    {
      assert Owned(clients, objects[k]);
    }
  }

  lemma ClientAdded(clients: seq<Client>, objects: seq<Session>, published: map<ClientId, nat>, c: Client)
    requires ObjectsInv(clients, objects, published)
    ensures ObjectsInv(clients + [c], objects, published)
  {
    forall k | 0 <= k < |objects|
      ensures Owned(clients + [c], objects[k])
    {
      assert Owned(clients, objects[k]);
    }
  }

  /** A client without an account belongs to no session yet. */
  lemma SessionAdded(clients: seq<Client>, objects: seq<Session>, published: map<ClientId, nat>, c: nat, account: u32, addons: seq<Addon>,
                     ch: Channel)
    requires ObjectsInv(clients, objects, published) && c < |clients| && clients[c].account.None?
    ensures ObjectsInv(clients[c := clients[c].(account := Some(account))], objects + [Session(clients[c].id, c, addons, ch)], published)
  {
    var after := clients[c := clients[c].(account := Some(account))];
    forall k | 0 <= k < |objects|
      ensures Owned(after, objects[k]) && objects[k].client != c
    {
      assert Owned(clients, objects[k]);
    }
  }

  lemma AcceptorKeepsObjects(w: World, e: Event)
    requires Inv(w) && AcceptorEnabled(w, e)
    ensures var v := AcceptorStep(w, e);
            ObjectsInv(v.clients, v.objects, v.published)
  {
    var a, v := w.acceptor, AcceptorStep(w, e);
    match e
    case Accept(id) => ClientAdded(w.clients, w.objects, w.published, Client(id, None));
    case Authenticate(account, start) =>
      SessionAdded(w.clients, w.objects, w.published, w.directory[a.id], account, a.addons, Open(start));
    case EncryptGreeting =>
      ChannelChange(w.clients, w.objects, w.published, a.session, v.objects[a.session].channel);
    case WriteGreeting =>
      ChannelChange(w.clients, w.objects, w.published, a.session, v.objects[a.session].channel);
    case FailGreeting =>
      ChannelChange(w.clients, w.objects, w.published, a.session, v.objects[a.session].channel);
    case _ =>
  }

  /** Up to the session object. */
  lemma ArrivalKeepsAcceptor(w: World, e: Event)
    requires Inv(w) && AcceptorEnabled(w, e) && (e.Accept? || e.FirstRead? || e.GiveUp? || e.Close?)
    ensures AcceptorInv(AcceptorStep(w, e))
  {
    match w.acceptor
    case Listening => assert map[][e.id := |w.clients|] == map[e.id := |w.clients|];
    case Closing(id) => assert w.directory - {id} == map[];
    case _ =>
  }

  /** A new session is not published, and nobody handles a packet on it. */
  lemma AuthenticateKeepsAcceptor(w: World, e: Event)
    requires Inv(w) && AcceptorEnabled(w, e) && e.Authenticate?
    ensures AcceptorInv(AcceptorStep(w, e))
  {
    var v := AcceptorStep(w, e);
    assert v.objects[|w.objects|].clientId == w.acceptor.id;
  }

  lemma SessionKeepsAcceptor(w: World, e: Event)
    requires Inv(w) && AcceptorEnabled(w, e) && (w.acceptor.Greeting? || w.acceptor.Piping?) && !e.GiveUp?
    ensures AcceptorInv(AcceptorStep(w, e))
  {
    var v := AcceptorStep(w, e);
    assert v.directory == w.directory && v.consumer == w.consumer && |v.objects| == |w.objects|;
    assert v.objects[w.acceptor.session].clientId == w.acceptor.id;
  }

  lemma AcceptorKeepsAcceptor(w: World, e: Event)
    requires Inv(w) && AcceptorEnabled(w, e)
    ensures AcceptorInv(AcceptorStep(w, e))
  {
    if e.Authenticate? {
      AuthenticateKeepsAcceptor(w, e);
    } else if (w.acceptor.Greeting? || w.acceptor.Piping?) && !e.GiveUp? {
      SessionKeepsAcceptor(w, e);
    } else {
      ArrivalKeepsAcceptor(w, e);
    }
  }

  lemma AcceptorKeepsQueue(w: World, e: Event)
    requires Inv(w) && AcceptorEnabled(w, e)
    ensures QueueInv(AcceptorStep(w, e))
  {
    if e.Pipe? {
      var q := Queued(w.objects[w.acceptor.session].clientId, w.acceptor.rest[0], w.acceptor.session);
      assert w.log.handled + InHand(w.consumer) + (w.queue + [q]) == (w.log.handled + InHand(w.consumer) + w.queue) + [q];
    }
  }

  lemma ConsumerKeepsObjects(w: World, e: Event)
    requires Inv(w) && ConsumerEnabled(w, e)
    ensures var v := ConsumerStep(w, e);
            ObjectsInv(v.clients, v.objects, v.published)
  {
    var v := ConsumerStep(w, e);
    if v.objects != w.objects {
      ChannelChange(w.clients, w.objects, w.published, w.consumer.session, v.objects[w.consumer.session].channel);
    }
  }

  /** What the accepting task relies on survives whatever leaves its own state, the maps and the clients alone, as long as
      packets are handled only on sessions that are published or were being handled already. */
  lemma AcceptorUndisturbed(w: World, v: World)
    requires AcceptorInv(w) && v.acceptor == w.acceptor && v.directory == w.directory && v.published == w.published
    requires v.clients == w.clients && Grew(w.clients, w.objects, v.clients, v.objects)
    requires v.consumer.Handling? ==>
               || (w.consumer.Handling? && v.consumer.session == w.consumer.session)
               || exists id :: id in w.published && v.consumer.session == w.published[id]
    ensures AcceptorInv(v)
  {
  }

  lemma ConsumerKeepsAcceptor(w: World, e: Event)
    requires Inv(w) && ConsumerEnabled(w, e)
    ensures AcceptorInv(ConsumerStep(w, e))
  {
    var v := ConsumerStep(w, e);
    ConsumerGrows(w, e, v);
    DeedSessions(w, e, v);
    AcceptorUndisturbed(w, v);
  }

  lemma ConsumerKeepsQueue(w: World, e: Event)
    requires Inv(w) && ConsumerEnabled(w, e)
    ensures QueueInv(ConsumerStep(w, e))
  {
    if e.TakePacket? {
      assert w.queue == [w.queue[0]] + w.queue[1..];
    }
  }

  lemma StepKeepsInv(w: World, e: Event)
    requires Inv(w) && Enabled(w, e)
    ensures Inv(Step(w, e))
  {
    if AcceptorEnabled(w, e) {
      AcceptorKeepsObjects(w, e);
      AcceptorKeepsAcceptor(w, e);
      AcceptorKeepsQueue(w, e);
    } else {
      ConsumerKeepsObjects(w, e);
      ConsumerKeepsAcceptor(w, e);
      ConsumerKeepsQueue(w, e);
    }
  }

  // ---- keystream order and wire order ----

  function GreetingHeld(a: Acceptor, i: nat): Option<Outgoing> {
    if a.Greeting? && a.session == i then a.held else None
  }

  function ReplyHeld(c: Consumer, i: nat): Option<Outgoing> {
    if c.Handling? && c.session == i then c.held else None
  }

  /** No session has two headers encrypted and not written, and every wire is in encryption order. */
  ghost predicate WireInv(w: World) {
    forall i :: 0 <= i < |w.objects| ==> OneOutstanding(w, i)
  }

  ghost predicate OneOutstanding(w: World, i: nat)
    requires i < |w.objects|
  {
    && (GreetingHeld(w.acceptor, i).None? || ReplyHeld(w.consumer, i).None?)
    && InOrder(w.objects[i].channel, Held(w, i))
  }

  function Held(w: World, i: nat): Option<Outgoing> {
    if GreetingHeld(w.acceptor, i).Some? then GreetingHeld(w.acceptor, i) else ReplyHeld(w.consumer, i)
  }

  /** The step from `w` to `v` leaves this session and its outstanding frame alone. */
  ghost predicate Untouched(w: World, v: World, k: nat) {
    && k < |w.objects| && k < |v.objects| && v.objects[k] == w.objects[k]
    && GreetingHeld(v.acceptor, k) == GreetingHeld(w.acceptor, k) && ReplyHeld(v.consumer, k) == ReplyHeld(w.consumer, k)
  }

  /** A step that touches at most session `i`. */
  lemma OthersKeepWire(w: World, v: World, i: nat)
    requires WireInv(w) && (i < |v.objects| ==> OneOutstanding(v, i))
    requires forall k: nat :: k < |v.objects| && k != i ==> Untouched(w, v, k)
    ensures WireInv(v)
  {
    forall k | 0 <= k < |v.objects| && k != i
      ensures OneOutstanding(v, k)
    {
      assert Untouched(w, v, k) && OneOutstanding(w, k);
    }
  }

  lemma GreetingOutstanding(w: World, e: Event)
    requires Inv(w) && WireInv(w) && AcceptorEnabled(w, e) && w.acceptor.Greeting?
    ensures var v := AcceptorStep(w, e);
            w.acceptor.session < |v.objects| && OneOutstanding(v, w.acceptor.session)
  {
    var a := w.acceptor;
    var ch := w.objects[a.session].channel;
    assert OneOutstanding(w, a.session) && ReplyHeld(w.consumer, a.session).None?;
    match e {
      case EncryptGreeting => EncryptInOrder(ch, a.todo[0]);
      case WriteGreeting => WriteInOrder(ch, a.held.value);
      case FailGreeting => FailInOrder(ch, a.held.value);
      case _ =>
    }
  }

  lemma GreetingKeepsWire(w: World, e: Event)
    requires Inv(w) && WireInv(w) && AcceptorEnabled(w, e) && w.acceptor.Greeting?
    ensures WireInv(AcceptorStep(w, e))
  {
    GreetingOutstanding(w, e);
    OthersKeepWire(w, AcceptorStep(w, e), w.acceptor.session);
  }

  lemma AuthenticateKeepsWire(w: World, e: Event)
    requires Inv(w) && WireInv(w) && AcceptorEnabled(w, e) && e.Authenticate?
    ensures WireInv(AcceptorStep(w, e))
  {
    assert InOrder(Open(e.start), None);
    OthersKeepWire(w, AcceptorStep(w, e), |w.objects|);
  }

  lemma OtherwiseKeepsWire(w: World, e: Event)
    requires Inv(w) && WireInv(w) && AcceptorEnabled(w, e) && !w.acceptor.Greeting? && !e.Authenticate?
    ensures WireInv(AcceptorStep(w, e))
  {
    OthersKeepWire(w, AcceptorStep(w, e), |w.objects|);
  }

  lemma AnswerOutstanding(w: World, backend: Backend)
    requires WireInv(w) && ConsumerEnabled(w, Answer(backend)) && GreetingHeld(w.acceptor, w.consumer.session).None?
    ensures var v := ConsumerStep(w, Answer(backend));
            w.consumer.session < |v.objects| && OneOutstanding(v, w.consumer.session)
  {
    var c := w.consumer;
    var account := AccountOf(w, c.session);
    assert OneOutstanding(w, c.session);
    ReplyHeaded(account, w.log.table, c.q.packet, backend);
    var reply := ReplyTo(account, w.log.table, c.q.packet, backend);
    if reply.Some? {
      EncryptInOrder(w.objects[c.session].channel, reply.value);
    }
  }

  /** Where a session's channel and the frame held for it stand decides whether it is in order. */
  lemma Standing(v: World, i: nat, ch: Channel, held: Option<Outgoing>)
    requires i < |v.objects| && v.objects[i].channel == ch && InOrder(ch, held)
    requires GreetingHeld(v.acceptor, i).None? && ReplyHeld(v.consumer, i) == held
    ensures OneOutstanding(v, i)
  {
  }

  lemma WrittenOutstanding(w: World)
    requires WireInv(w) && ConsumerEnabled(w, WriteReply) && GreetingHeld(w.acceptor, w.consumer.session).None?
    ensures var v := ConsumerStep(w, WriteReply);
            w.consumer.session < |v.objects| && OneOutstanding(v, w.consumer.session)
  {
    var i, ch, o := w.consumer.session, w.objects[w.consumer.session].channel, w.consumer.held.value;
    assert OneOutstanding(w, i);
    WriteInOrder(ch, o);
    Standing(ConsumerStep(w, WriteReply), i, Written(ch, o), None);
  }

  lemma FailedOutstanding(w: World)
    requires WireInv(w) && ConsumerEnabled(w, FailReply) && GreetingHeld(w.acceptor, w.consumer.session).None?
    ensures var v := ConsumerStep(w, FailReply);
            w.consumer.session < |v.objects| && OneOutstanding(v, w.consumer.session)
  {
    var i, ch, o := w.consumer.session, w.objects[w.consumer.session].channel, w.consumer.held.value;
    assert OneOutstanding(w, i);
    FailInOrder(ch, o);
    Standing(ConsumerStep(w, FailReply), i, Failed(ch), None);
  }

  lemma ReplyOutstanding(w: World, e: Event)
    requires Inv(w) && WireInv(w) && ConsumerEnabled(w, e) && w.consumer.Handling?
    ensures var v := ConsumerStep(w, e);
            w.consumer.session < |v.objects| && OneOutstanding(v, w.consumer.session)
  {
    assert GreetingHeld(w.acceptor, w.consumer.session).None?;
    match e {
      case Answer(backend) => AnswerOutstanding(w, backend);
      case WriteReply => WrittenOutstanding(w);
      case FailReply => FailedOutstanding(w);
      case FinishPacket => assert OneOutstanding(w, w.consumer.session);
      case _ =>
    }
  }

  lemma ReplyKeepsWire(w: World, e: Event)
    requires Inv(w) && WireInv(w) && ConsumerEnabled(w, e) && w.consumer.Handling?
    ensures WireInv(ConsumerStep(w, e))
  {
    ReplyOutstanding(w, e);
    OthersKeepWire(w, ConsumerStep(w, e), w.consumer.session);
  }

  lemma StepKeepsWire(w: World, e: Event)
    requires Inv(w) && WireInv(w) && Enabled(w, e)
    ensures WireInv(Step(w, e))
  {
    if AcceptorEnabled(w, e) {
      if w.acceptor.Greeting? {
        GreetingKeepsWire(w, e);
      } else if e.Authenticate? {
        AuthenticateKeepsWire(w, e);
      } else {
        OtherwiseKeepsWire(w, e);
      }
    } else if w.consumer.Handling? {
      ReplyKeepsWire(w, e);
    } else {
      OthersKeepWire(w, ConsumerStep(w, e), |w.objects|);
    }
  }

  // ---- whose session answers ----

  /** Every packet still to be looked up leads to the session that queued it, and the one being handled did. */
  ghost predicate Own(w: World) {
    && (forall q :: q in w.queue ==> Leads(w.published, q))
    && (w.consumer.Looking? ==> Leads(w.published, w.consumer.q))
    && (w.consumer.Handling? ==> w.consumer.session == w.consumer.q.from)
    && (forall d :: d in w.log.deeds ==> d.session == d.q.from)
  }

  ghost predicate Leads(published: map<ClientId, nat>, q: Queued) {
    q.id in published && published[q.id] == q.from
  }

  /** This step publishes a session under an id for which packets are still waiting. */
  ghost predicate Displacing(w: World, e: Event) {
    && e.Publish? && w.acceptor.Greeting? && w.acceptor.session < |w.objects|
    && var id := w.objects[w.acceptor.session].clientId;
       (exists q :: q in w.queue && q.id == id) || (w.consumer.Looking? && w.consumer.q.id == id)
  }

  /** Steps that publish nothing. */
  lemma QuietStepOwn(w: World, e: Event)
    requires AcceptorInv(w) && Own(w) && AcceptorEnabled(w, e) && !e.Publish?
    ensures Own(AcceptorStep(w, e))
  {
    var v := AcceptorStep(w, e);
    assert v.published == w.published && v.consumer == w.consumer;
    if e.Pipe? {
      var q := Queued(w.objects[w.acceptor.session].clientId, w.acceptor.rest[0], w.acceptor.session);
      assert Leads(w.published, q) && v.queue == w.queue + [q];
    } else {
      assert v.queue == w.queue;
    }
  }

  lemma PublishOwn(w: World)
    requires AcceptorInv(w) && Own(w) && AcceptorEnabled(w, Publish)
    ensures Own(AcceptorStep(w, Publish)) <==> !Displacing(w, Publish)
  {
    var v, id := AcceptorStep(w, Publish), w.objects[w.acceptor.session].clientId;
    LeadsAfterPublish(w.published, id, w.acceptor.session, v.published);
    assert v.queue == w.queue && v.consumer == w.consumer;
  }

  /** A packet still leads to its session unless the new one took its id. */
  lemma LeadsAfterPublish(published: map<ClientId, nat>, id: ClientId, session: nat, after: map<ClientId, nat>)
    requires after == published[id := session] && forall other :: other in published ==> published[other] != session
    ensures forall q :: Leads(published, q) ==> (Leads(after, q) <==> q.id != id)
  {
  }

  lemma ConsumerStepOwn(w: World, e: Event)
    requires Own(w) && ConsumerEnabled(w, e)
    ensures Own(ConsumerStep(w, e))
  {
    var v := ConsumerStep(w, e);
    assert v.published == w.published;
    assert forall q :: q in v.queue ==> q in w.queue;
    if e.TakePacket? {
      assert w.queue[0] in w.queue;
    }
  }

  /** Packets go on leading to their own sessions exactly as long as no such step is taken. */
  lemma StepOwn(w: World, e: Event)
    requires Inv(w) && Own(w) && Enabled(w, e)
    ensures Own(Step(w, e)) <==> !Displacing(w, e)
  {
    if !AcceptorEnabled(w, e) {
      ConsumerStepOwn(w, e);
    } else if e.Publish? {
      PublishOwn(w);
    } else {
      QuietStepOwn(w, e);
    }
  }

  ghost predicate OwnThroughout(w: World, events: seq<Event>)
    decreases |events|
  {
    Own(w) && (events == [] || (Enabled(w, events[0]) && OwnThroughout(Step(w, events[0]), events[1..])))
  }

  ghost predicate NeverDisplaced(w: World, events: seq<Event>)
    decreases |events|
  {
    events == [] ||
      (Enabled(w, events[0]) && !Displacing(w, events[0]) && NeverDisplaced(Step(w, events[0]), events[1..]))
  }

  lemma {:induction false} OwnershipExact(w: World, events: seq<Event>, after: World)
    requires Inv(w) && Own(w) && Reaches(w, events, after)
    ensures OwnThroughout(w, events) <==> NeverDisplaced(w, events)
    ensures OwnThroughout(w, events) ==> Own(after)
    decreases |events|
  {
    if events != [] {
      StepOwn(w, events[0]);
      StepKeepsInv(w, events[0]);
      if !Displacing(w, events[0]) {
        OwnershipExact(Step(w, events[0]), events[1..], after);
      }
    }
  }

  ghost predicate DistinctIds(clients: seq<Client>) {
    forall i, j :: 0 <= i < j < |clients| ==> clients[i].id != clients[j].id
  }

  lemma DistinctBefore(w: World, e: Event)
    requires Enabled(w, e) && DistinctIds(Step(w, e).clients)
    ensures DistinctIds(w.clients)
  {
    if AcceptorEnabled(w, e) {
      AcceptorGrows(w, e, AcceptorStep(w, e));
    } else {
      ConsumerGrows(w, e, ConsumerStep(w, e));
    }
    FewerDistinct(w.clients, Step(w, e).clients);
  }

  lemma FewerDistinct(clients: seq<Client>, more: seq<Client>)
    requires |clients| <= |more| && DistinctIds(more) && forall c :: 0 <= c < |clients| ==> more[c].id == clients[c].id
    ensures DistinctIds(clients)
  {
    forall i, j | 0 <= i < j < |clients|
      ensures clients[i].id != clients[j].id
    {
      assert more[i].id != more[j].id;
    }
  }

  lemma {:induction false} DistinctAtStart(w: World, events: seq<Event>, after: World)
    requires Reaches(w, events, after) && DistinctIds(after.clients)
    ensures DistinctIds(w.clients)
    decreases |events|
  {
    if events != [] {
      DistinctAtStart(Step(w, events[0]), events[1..], after);
      DistinctBefore(w, events[0]);
    }
  }

  /** With distinct ids, a session about to be published displaces nobody. */
  lemma NobodyDisplaced(w: World)
    requires Inv(w) && w.acceptor.Greeting? && DistinctIds(w.clients)
    ensures w.objects[w.acceptor.session].clientId !in w.published && !Displacing(w, Publish)
  {
    var session := w.acceptor.session;
    var id := w.objects[session].clientId;
    forall other | 0 <= other < |w.objects| && other != session
      ensures w.objects[other].clientId != id
    {
      assert Owned(w.clients, w.objects[session]) && Owned(w.clients, w.objects[other]);
      assert w.objects[session].client != w.objects[other].client;
    }
    assert w.consumer.Looking? ==> w.consumer.q in InHand(w.consumer);
  }

  lemma {:induction false} DistinctNeverDisplaced(w: World, events: seq<Event>, after: World)
    requires Inv(w) && Reaches(w, events, after) && DistinctIds(after.clients)
    ensures NeverDisplaced(w, events)
    decreases |events|
  {
    if events != [] {
      DistinctAtStart(w, events, after);
      if events[0].Publish? && w.acceptor.Greeting? {
        NobodyDisplaced(w);
      }
      StepKeepsInv(w, events[0]);
      DistinctNeverDisplaced(Step(w, events[0]), events[1..], after);
    }
  }

  // ---- every interleaving ----

  lemma {:induction false} RunKeepsAll(w: World, events: seq<Event>, after: World)
    requires Inv(w) && WireInv(w) && Reaches(w, events, after)
    ensures Inv(after) && WireInv(after)
    decreases |events|
  {
    if events != [] {
      StepKeepsInv(w, events[0]);
      StepKeepsWire(w, events[0]);
      RunKeepsAll(Step(w, events[0]), events[1..], after);
    }
  }

  lemma AlwaysAll(events: seq<Event>, w: World)
    requires Reaches(Boot(w.log.origin), events, w)
    ensures Inv(w) && WireInv(w)
  {
    RunKeepsAll(Boot(w.log.origin), events, w);
  }

  ghost predicate HasAccount(w: World, session: nat) {
    session < |w.objects| && w.objects[session].client < |w.clients| && w.clients[w.objects[session].client].account.Some?
  }

  /** Each published session is stored under its own client id and its client has an account; every queued packet's id
      has a session, so neither dropping a packet nor failing for want of an account can happen; the client being
      authenticated is present and not yet online; and no packet is lost, repeated or overtaken between the
      connection and its handler. */
  ghost predicate Safe(w: World) {
    && (forall id :: id in w.published ==> HasAccount(w, w.published[id]) && w.objects[w.published[id]].clientId == id)
    && (forall q :: q in w.queue ==> q.id in w.published)
    && (w.consumer.Looking? ==> w.consumer.q.id in w.published)
    && (w.consumer.Handling? ==> HasAccount(w, w.consumer.session))
    && (w.acceptor.Authenticating? ==>
          && w.acceptor.id in w.directory && w.directory[w.acceptor.id] < |w.clients|
          && w.clients[w.directory[w.acceptor.id]] == Client(w.acceptor.id, None))
    && w.log.piped == w.log.handled + InHand(w.consumer) + w.queue
  }

  lemma InvIsSafe(w: World)
    requires Inv(w)
    ensures Safe(w)
  {
    forall i | 0 <= i < |w.objects|
      ensures HasAccount(w, i)
    {
      assert Owned(w.clients, w.objects[i]);
    }
    assert w.consumer.Looking? ==> w.consumer.q in InHand(w.consumer);
  }

  lemma SessionSafety(events: seq<Event>, w: World)
    requires Reaches(Boot(w.log.origin), events, w)
    ensures Safe(w)
  {
    AlwaysAll(events, w);
    InvIsSafe(w);
  }

  /** Frames stand on the wire in the order their headers were encrypted, and a frame still held comes after all of them. A
      client in step with the session's first position reads back exactly the messages sent if and only if their bodies fit
      their headers and every header was encrypted with the bytes the client decrypts it with; unless a write failed, the
      bodies alone decide. */
  ghost predicate Readable(ch: Channel, held: Option<Outgoing>) {
    && Ascending(ch.marks, ch.cipher.at) && Carries(ch.start.keystream, ch.marks, ch.sent, ch.wire)
    && (held.Some? ==> Ascending(ch.marks + [held.value.at], ch.cipher.at))
    && (ClientReads(ch.start, ch.wire) == Some(ch.sent)
        <==> AllFit(ch.sent) && Aligned(ch.start.keystream, ch.start.at, ch.marks))
    && (!ch.failed ==>
          && (ClientReads(ch.start, ch.wire) == Some(ch.sent) <==> AllFit(ch.sent))
          && ch.cipher == ch.start.Skip(4 * |ch.sent| + if held.Some? then 4 else 0))
  }

  lemma ContiguousIsReadable(start: Cursor, sent: seq<Message>, wire: seq<byte>, next: nat)
    requires Contiguous(start, sent, wire, next)
    ensures ClientReads(start, wire) == Some(sent) <==> AllFit(sent)
  {
    StreamRoundTrip(start, sent);
  }

  lemma HeldComesLast(marks: seq<nat>, at: nat)
    requires Ascending(marks, at)
    ensures Ascending(marks, at + 4) && Ascending(marks + [at], at + 4)
  {
    AscendingLimit(marks, at, at + 4);
    assert (marks + [at])[..|marks|] == marks;
  }

  lemma InOrderIsReadable(ch: Channel, held: Option<Outgoing>)
    requires InOrder(ch, held)
    ensures Readable(ch, held)
  {
    var at := if held.Some? then held.value.at else ch.cipher.at;
    HeldComesLast(ch.marks, at);
    CarriesLayout(ch.start.keystream, ch.marks, ch.sent, ch.wire);
    LayoutReadBack(ch.start.keystream, ch.start.at, ch.marks, ch.sent);
    if !ch.failed {
      ContiguousIsReadable(ch.start, ch.sent, ch.wire, at);
    }
  }

  /** In every interleaving a session has at most one header encrypted and not yet written, and its wire is in
      keystream order. */
  lemma WireOrder(events: seq<Event>, w: World, i: nat)
    requires Reaches(Boot(w.log.origin), events, w) && i < |w.objects|
    ensures GreetingHeld(w.acceptor, i).None? || ReplyHeld(w.consumer, i).None?
    ensures Readable(w.objects[i].channel, Held(w, i))
  {
    AlwaysAll(events, w);
    assert OneOutstanding(w, i);
    InOrderIsReadable(w.objects[i].channel, Held(w, i));
  }

  /** The exact condition: all through a run every packet is handled by the session that queued it if and only if no
      session is ever published under an id for which packets are still waiting; drawing each client id once is enough
      for that. */
  lemma OwnSessionAnswers(events: seq<Event>, w: World)
    requires Reaches(Boot(w.log.origin), events, w)
    ensures OwnThroughout(Boot(w.log.origin), events) <==> NeverDisplaced(Boot(w.log.origin), events)
    ensures DistinctIds(w.clients) ==> OwnThroughout(Boot(w.log.origin), events) && Own(w)
  {
    OwnershipExact(Boot(w.log.origin), events, w);
    if DistinctIds(w.clients) {
      DistinctNeverDisplaced(Boot(w.log.origin), events, w);
    }
  }

  // ---- such runs exist ----

  lemma {:induction false} Took(first: World, events: seq<Event>, w: World, e: Event) returns (longer: seq<Event>, next: World)
    requires Reaches(first, events, w) && Enabled(w, e)
    ensures Reaches(first, longer, next) && longer == events + [e] && next == Step(w, e)
    decreases |events|
  {
    longer := events + [e];
    next := Step(w, e);
    if events == [] {
      assert longer[1..] == [];
    } else {
      var _, _ := Took(Step(first, events[0]), events[1..], w, e);
      assert longer[1..] == events[1..] + [e];
    }
  }

  /** `w` and `v` differ at most in where the acceptor stands and in what is on the wires. */
  ghost predicate OnlyWiresDiffer(w: World, v: World) {
    && v == w.(objects := v.objects, acceptor := v.acceptor) && |v.objects| == |w.objects|
    && forall i :: 0 <= i < |w.objects| ==>
         v.objects[i].clientId == w.objects[i].clientId && v.objects[i].client == w.objects[i].client
  }

  /** A greeting that goes out undisturbed. */
  lemma {:induction false} Greeted(first: World, events: seq<Event>, w: World) returns (longer: seq<Event>, next: World)
    requires Reaches(first, events, w) && w.acceptor.Greeting? && w.acceptor.session < |w.objects| && w.acceptor.held.None?
    requires AllHeaded(w.acceptor.todo)
    ensures Reaches(first, longer, next) && next.acceptor == w.acceptor.(todo := []) && OnlyWiresDiffer(w, next)
    decreases |w.acceptor.todo|
  {
    if w.acceptor.todo == [] {
      longer, next := events, w;
    } else {
      longer, next := Took(first, events, w, EncryptGreeting);
      longer, next := Took(first, longer, next, WriteGreeting);
      longer, next := Greeted(first, longer, next);
    }
  }

  lemma Admitted(first: World, events: seq<Event>, w: World, id: ClientId, auth: ClientPacket, start: Cursor, packets: seq<ClientPacket>)
    returns (longer: seq<Event>, next: World)
    requires Reaches(first, events, w) && w.acceptor.Listening? && auth.AuthSessionPacket?
    ensures Reaches(first, longer, next)
    ensures next.acceptor == Greeting(id, |w.objects|, WorldFrames.Greeting(auth.session.addons), None, packets)
    ensures next.clients == w.clients + [Client(id, Some(1))]
    ensures next.objects == w.objects + [Session(id, |w.clients|, auth.session.addons, Open(start))]
    ensures next.published == w.published && next.queue == w.queue && next.consumer == w.consumer && next.log == w.log
  {
    longer, next := Took(first, events, w, Accept(id));
    longer, next := Took(first, longer, next, FirstRead([auth] + packets));
    longer, next := Took(first, longer, next, Authenticate(1, start));
  }

  /** One whole connection that queues `packets`, from a listening server through all four greeting packets to a
      published session. */
  lemma ConnectionMade(first: World, events: seq<Event>, w: World, id: ClientId, auth: ClientPacket, start: Cursor,
                       packets: seq<ClientPacket>)
    returns (longer: seq<Event>, next: World)
    requires Reaches(first, events, w) && w.acceptor.Listening? && w.consumer.Waiting? && auth.AuthSessionPacket?
    ensures Reaches(first, longer, next)
    ensures next.acceptor == Piping(id, |w.objects|, packets) && next.published == w.published[id := |w.objects|]
    ensures next.queue == w.queue && next.consumer == Waiting && |next.objects| == |w.objects| + 1
    ensures next.objects[|w.objects|].clientId == id && next.objects[|w.objects|].client == |w.clients|
    ensures next.clients == w.clients + [Client(id, Some(1))] && next.log == w.log
  {
    longer, next := Admitted(first, events, w, id, auth, start, packets);
    GreetingFits(auth.session.addons);
    longer, next := Greeted(first, longer, next);
    longer, next := Took(first, longer, next, Publish);
  }

  lemma LastPacket(first: World, events: seq<Event>, w: World, packet: ClientPacket) returns (longer: seq<Event>, next: World)
    requires Reaches(first, events, w) && w.acceptor.Piping? && w.acceptor.rest == [packet] && w.acceptor.session < |w.objects|
    ensures Reaches(first, longer, next) && next.acceptor == Listening && next.consumer == w.consumer
    ensures next.objects == w.objects && next.clients == w.clients && next.published == w.published
    ensures next.log.table == w.log.table && next.log.origin == w.log.origin
    ensures next.queue == w.queue + [Queued(w.objects[w.acceptor.session].clientId, packet, w.acceptor.session)]
  {
    longer, next := Took(first, events, w, Pipe);
    longer, next := Took(first, longer, next, GiveUp);
    longer, next := Took(first, longer, next, Close);
  }

  /** If an id is drawn again before its queue is empty, a packet is handled by another connection's session. Both
      connections here are complete: each greets its client with all four packets under its own session key. */
  lemma ReusedIdMisdirects(first: World, id: ClientId, hmac: Hmac, key: Bytes40, otherKey: Bytes40, auth: ClientPacket,
                           packet: ClientPacket)
    returns (events: seq<Event>, w: World)
    requires first == Boot(first.log.origin) && auth.AuthSessionPacket?
    ensures Reaches(first, events, w)
    ensures w.consumer == Handling(Queued(id, packet, 0), 1, None, false)
  {
    events, w := ConnectionMade(first, [], first, id, auth, StreamAt(hmac, ENCRYPT_KEY, key, DROPPED), [packet]);
    events, w := LastPacket(first, events, w, packet);
    events, w := ConnectionMade(first, events, w, id, auth, StreamAt(hmac, ENCRYPT_KEY, otherKey, DROPPED), []);
    events, w := Took(first, events, w, TakePacket);
    events, w := Took(first, events, w, Lookup);
  }
}
