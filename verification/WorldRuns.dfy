/** Stretches of the transition system of `WorldSessions` that run undisturbed: one whole connection, and the handling of
    one packet. They are what the loops of `WorldTasks` do. */
module WorldRuns {
  import opened Bytes
  import opened Srp
  import opened HeaderEncryption
  import opened Parsing
  import opened WorldPackets
  import opened WorldChannel
  import opened WorldSessions
  import opened WorldReplies
  import opened WorldHandler
  import opened WorldLogin
  import opened GameClient
  import F = WorldFrames
  import Characters
  import CharacterList

  /** Some run of the transition system leads here. */
  ghost predicate Reachable(w: World) {
    exists events :: Reaches(Boot(w.log.origin), events, w)
  }

  lemma Extend(before: World, e: WorldSessions.Event, after: World)
    requires Reachable(before) && Enabled(before, e) && after == Step(before, e)
    ensures Reachable(after)
  {
    var events :| Reaches(Boot(before.log.origin), events, before);
    SameOrigin(before, e, after);
    var _, _ := Took(Boot(before.log.origin), events, before, e);
  }

  lemma SameOrigin(before: World, e: WorldSessions.Event, after: World)
    requires Enabled(before, e) && after == Step(before, e)
    ensures after.log.origin == before.log.origin
  {
    if AcceptorEnabled(before, e) {
      AcceptorGrows(before, e, after);
    } else {
      ConsumerGrows(before, e, after);
    }
  }

  lemma ReachableInv(w: World)
    requires Reachable(w)
    ensures Inv(w)
  {
    var events :| Reaches(Boot(w.log.origin), events, w);
    AlwaysAll(events, w);
  }

  /** The next packet has a session, and the client of that session an account. */
  lemma FrontHasSession(w: World)
    requires Reachable(w) && w.queue != []
    ensures w.queue[0].id in w.published && w.published[w.queue[0].id] < |w.objects|
    ensures var s := w.objects[w.published[w.queue[0].id]];
            s.client < |w.clients| && w.clients[s.client].account.Some?
  {
    ReachableInv(w);
    assert Owned(w.clients, w.objects[w.published[w.queue[0].id]]);
  }

  lemma NobodyListed(w: World)
    requires Reachable(w) && w.acceptor.Listening?
    ensures w.directory == map[]
  {
    ReachableInv(w);
  }

  // ---- undisturbed stretches of the transition system ----

  /** One message through a channel: encrypted, then written or lost. */
  function Through(ch: Channel, m: F.Message, fails: bool): Channel
    requires F.Headed(m)
  {
    if fails then Failed(Encrypted(ch)) else Written(Encrypted(ch), Encrypting(ch, m))
  }

  /** Messages through a channel, none of them lost. */
  function ThroughAll(ch: Channel, messages: seq<F.Message>): Channel
    requires F.AllHeaded(messages)
  {
    if messages == [] then ch
    else Through(ThroughAll(ch, messages[..|messages| - 1]), messages[|messages| - 1], false)
  }

  /** The greeting through a channel, with the packet whose write fails, if any. */
  function AfterGreeting(ch: Channel, greeting: seq<F.Message>, failure: Option<nat>): Channel
    requires F.AllHeaded(greeting)
  {
    if failure.None? || failure.value >= |greeting| then ThroughAll(ch, greeting)
    else Through(ThroughAll(ch, greeting[..failure.value]), greeting[failure.value], true)
  }

  /** Channel and connection agree on what is encrypted and written. */
  lemma {:induction false} ThroughAllCarries(ch: Channel, messages: seq<F.Message>)
    requires F.AllHeaded(messages)
    ensures ThroughAll(ch, messages).cipher == ch.cipher.Skip(4 * |messages|)
    ensures ThroughAll(ch, messages).wire == ch.wire + F.ServerStream(ch.cipher, messages)
  {
    if messages != [] {
      var front, last := messages[..|messages| - 1], messages[|messages| - 1];
      ThroughAllCarries(ch, front);
      assert front + [last] == messages;
      ThroughCarries(ch, ThroughAll(ch, front), front, last, messages);
    }
  }

  lemma ThroughCarries(ch: Channel, now: Channel, front: seq<F.Message>, last: F.Message, messages: seq<F.Message>)
    requires messages == front + [last] && F.AllHeaded(front) && F.Headed(last) && F.AllHeaded(messages)
    requires now.cipher == ch.cipher.Skip(4 * |front|) && now.wire == ch.wire + F.ServerStream(ch.cipher, front)
    ensures Through(now, last, false).cipher == ch.cipher.Skip(4 * |messages|)
    ensures Through(now, last, false).wire == ch.wire + F.ServerStream(ch.cipher, messages)
  {
    var sent, frame := F.ServerStream(ch.cipher, front), F.ServerFrame(now.cipher, last);
    F.StreamAppend(ch.cipher, front, last);
    Regroup(ch.wire, sent, frame);
  }

  /** A session is being greeted: `n` packets are out. */
  ghost predicate GreetedUpTo(w: World, todo: seq<F.Message>, n: nat, v: World)
    requires n <= |todo| && F.AllHeaded(todo) && w.acceptor.Greeting? && w.acceptor.session < |w.objects|
  {
    var a := w.acceptor;
    v == w.(objects := SetChannel(w.objects, a.session, ThroughAll(w.objects[a.session].channel, todo[..n])),
            acceptor := a.(todo := todo[n..]))
  }

  lemma GreetOne(w: World, todo: seq<F.Message>, n: nat, u: World, v: World)
    requires w.acceptor.Greeting? && w.acceptor.session < |w.objects| && F.AllHeaded(todo) && n < |todo| && w.acceptor.held.None?
    requires Reachable(u) && GreetedUpTo(w, todo, n, u) && GreetedUpTo(w, todo, n + 1, v)
    ensures Reachable(v)
  {
    assert todo[..n + 1][..n] == todo[..n] && todo[n..][0] == todo[n] && todo[n..][1..] == todo[n + 1..];
    var between := Step(u, EncryptGreeting);
    Extend(u, EncryptGreeting, between);
    Extend(between, WriteGreeting, v);
  }

  lemma {:induction false} GreetingGoesOut(w: World, todo: seq<F.Message>, n: nat) returns (v: World)
    requires Reachable(w) && w.acceptor.Greeting? && w.acceptor.session < |w.objects| && w.acceptor.held.None?
    requires w.acceptor.todo == todo && F.AllHeaded(todo) && n <= |todo|
    ensures Reachable(v) && GreetedUpTo(w, todo, n, v)
  {
    var a := w.acceptor;
    v := w.(objects := SetChannel(w.objects, a.session, ThroughAll(w.objects[a.session].channel, todo[..n])),
            acceptor := a.(todo := todo[n..]));
    if n == 0 {
      assert v == w;
    } else {
      var u := GreetingGoesOut(w, todo, n - 1);
      GreetOne(w, todo, n - 1, u, v);
    }
  }

  /** The greeting as a whole: all of it out, or the session given up. */
  lemma GreetingEnds(w: World, todo: seq<F.Message>, failure: Option<nat>, v: World)
    requires Reachable(w) && w.acceptor.Greeting? && w.acceptor.session < |w.objects| && w.acceptor.held.None?
    requires w.acceptor.todo == todo && F.AllHeaded(todo)
    requires var a := w.acceptor;
             v == w.(objects := SetChannel(w.objects, a.session, AfterGreeting(w.objects[a.session].channel, todo, failure)),
                     acceptor := if failure.None? || failure.value >= |todo| then a.(todo := []) else Closing(a.id))
    ensures Reachable(v)
  {
    assert todo[..|todo|] == todo && todo[|todo|..] == [];
    if failure.None? || failure.value >= |todo| {
      var _ := GreetingGoesOut(w, todo, |todo|);
    } else {
      var u := GreetingGoesOut(w, todo, failure.value);
      var between := Step(u, EncryptGreeting);
      Extend(u, EncryptGreeting, between);
      Extend(between, FailGreeting, v);
    }
  }

  /** Packets as one session queues them. */
  function Tagged(id: ClientId, from: nat, packets: seq<ClientPacket>): seq<Queued> {
    seq(|packets|, i requires 0 <= i < |packets| => Queued(id, packets[i], from))
  }

  lemma TaggedAppend(queue: seq<Queued>, id: ClientId, from: nat, a: seq<ClientPacket>, b: seq<ClientPacket>)
    ensures queue + Tagged(id, from, a) + Tagged(id, from, b) == queue + Tagged(id, from, a + b)
  {
    assert Tagged(id, from, a + b) == Tagged(id, from, a) + Tagged(id, from, b);
    Regroup(queue, Tagged(id, from, a), Tagged(id, from, b));
  }

  lemma NothingTagged(queue: seq<Queued>, id: ClientId, from: nat)
    ensures queue + Tagged(id, from, []) == queue
  {
  }

  /** Packets queued one after the other. */
  lemma {:induction false} PacketsQueued(w: World, packets: seq<ClientPacket>, v: World)
    requires Reachable(w) && w.acceptor.Piping? && w.acceptor.rest == packets && w.acceptor.session < |w.objects|
    requires w.objects[w.acceptor.session].clientId == w.acceptor.id
    requires var qs := Tagged(w.acceptor.id, w.acceptor.session, packets);
             v == w.(queue := w.queue + qs, log := w.log.(piped := w.log.piped + qs), acceptor := w.acceptor.(rest := []))
    ensures Reachable(v)
    decreases |packets|
  {
    var a := w.acceptor;
    if packets == [] {
      assert v == w;
    } else {
      var next := Step(w, Pipe);
      Extend(w, Pipe, next);
      assert Tagged(a.id, a.session, packets) == [Queued(a.id, packets[0], a.session)] + Tagged(a.id, a.session, packets[1..]);
      PacketsQueued(next, packets[1..], v);
    }
  }

  /** A client has connected. */
  function Arrived(w: World, id: ClientId): World {
    w.(clients := w.clients + [Client(id, None)], directory := map[id := |w.clients|], acceptor := Connected(id))
  }

  lemma ArrivedReachable(w: World, id: ClientId)
    requires Reachable(w) && w.acceptor.Listening?
    ensures Reachable(Arrived(w, id))
  {
    NobodyListed(w);
    assert map[][id := |w.clients|] == map[id := |w.clients|];
    Extend(w, Accept(id), Arrived(w, id));
  }

  /** It has authenticated, and its session is about to greet it. */
  function Welcomed(w: World, id: ClientId, account: u32, start: Cursor, addons: seq<Addon>): World {
    w.(clients := w.clients + [Client(id, Some(account))], directory := map[id := |w.clients|],
       objects := w.objects + [WorldSessions.Session(id, |w.clients|, addons, Open(start))],
       acceptor := Greeting(id, |w.objects|, F.Greeting(addons), None, []))
  }

  lemma WelcomedReachable(w: World, id: ClientId, account: u32, start: Cursor, addons: seq<Addon>, session: AuthSession)
    requires Reachable(w) && w.acceptor.Listening? && session.addons == addons
    ensures Reachable(Welcomed(w, id, account, start, addons))
  {
    ArrivedReachable(w, id);
    var first := [AuthSessionPacket(session)];
    assert first[1..] == [];
    var arrived, asked := Arrived(w, id), Arrived(w, id).(acceptor := Authenticating(id, addons, []));
    Extend(arrived, FirstRead(first), asked);
    var c := |w.clients|;
    assert asked.clients[c := asked.clients[c].(account := Some(account))] == w.clients + [Client(id, Some(account))];
    Extend(asked, Authenticate(account, start), Welcomed(w, id, account, start, addons));
  }

  /** Its greeting has gone out, or broken off. */
  function Met(w: World, id: ClientId, account: u32, start: Cursor, addons: seq<Addon>, failure: Option<nat>): World {
    F.GreetingWritable(addons, F.Greeting(addons));
    w.(clients := w.clients + [Client(id, Some(account))], directory := map[id := |w.clients|],
       objects := w.objects + [WorldSessions.Session(id, |w.clients|, addons, AfterGreeting(Open(start), F.Greeting(addons), failure))],
       acceptor := if failure.None? || failure.value >= 4 then Greeting(id, |w.objects|, [], None, []) else Closing(id))
  }

  /** Greeting the newest session changes only that one. */
  lemma NewestChannel(objects: seq<WorldSessions.Session>, s: WorldSessions.Session, ch: Channel)
    ensures SetChannel(objects + [s], |objects|, ch) == objects + [s.(channel := ch)]
  {
  }

  lemma SomeSession(addons: seq<Addon>) returns (session: AuthSession)
    ensures session.addons == addons
  {
    session := AuthSession(0, 0, [], SessionFields(0, [0, 0, 0, 0], 0, 0, 0, 0, seq(20, _ => 0)), addons);
  }

  lemma MetReachable(w: World, id: ClientId, account: u32, start: Cursor, addons: seq<Addon>, failure: Option<nat>, met: World)
    requires Reachable(w) && w.acceptor.Listening? && met == Met(w, id, account, start, addons, failure)
    ensures Reachable(met)
  {
    var welcomed, greeting := Welcomed(w, id, account, start, addons), F.Greeting(addons);
    var session := SomeSession(addons);
    WelcomedReachable(w, id, account, start, addons, session);
    F.GreetingWritable(addons, greeting);
    NewestChannel(w.objects, WorldSessions.Session(id, |w.clients|, addons, Open(start)), AfterGreeting(Open(start), greeting, failure));
    GreetingEnds(welcomed, greeting, failure, met);
  }

  /** Its session is published and its packets are queued. */
  function Served(met: World, packets: seq<ClientPacket>): World
    requires met.acceptor.Greeting?
  {
    var a := met.acceptor;
    var qs := Tagged(a.id, a.session, packets);
    met.(published := met.published[a.id := a.session], queue := met.queue + qs, log := met.log.(piped := met.log.piped + qs),
         acceptor := Piping(a.id, a.session, []))
  }

  lemma ServedReachable(met: World, packets: seq<ClientPacket>)
    requires Reachable(met) && met.acceptor.Greeting? && met.acceptor.todo == [] && met.acceptor.held.None? && met.acceptor.rest == []
    requires met.acceptor.session < |met.objects| && met.objects[met.acceptor.session].clientId == met.acceptor.id
    ensures Reachable(Served(met, packets))
  {
    var a := met.acceptor;
    var open := met.(published := met.published[a.id := a.session], acceptor := Piping(a.id, a.session, []));
    Extend(met, Publish, open);
    var ready := open.(acceptor := Piping(a.id, a.session, packets));
    Extend(open, ReadMore(packets), ready);
    PacketsQueued(ready, packets, Served(met, packets));
  }

  /** The connection is gone. */
  function Gone(w: World): World {
    w.(directory := map[], acceptor := Listening)
  }

  lemma GoneReachable(w: World, id: ClientId)
    requires Reachable(w) && w.directory.Keys == {id}
    requires w.acceptor == Connected(id) || w.acceptor == Closing(id) || (w.acceptor.Piping? && w.acceptor.id == id)
    ensures Reachable(Gone(w))
  {
    var closing := w.(acceptor := Closing(id));
    if w.acceptor != Closing(id) {
      Extend(w, GiveUp, closing);
    }
    assert w.directory - {id} == map[];
    Extend(closing, Close, Gone(w));
  }

  // ---- a whole connection ----

  /** The channel of a new session once it has greeted its client. */
  ghost function NewChannel(hmac: Hmac, key: Bytes40, addons: seq<Addon>, failure: Option<nat>): Channel {
    F.GreetingWritable(addons, F.Greeting(addons));
    AfterGreeting(Open(StreamAt(hmac, ENCRYPT_KEY, key, DROPPED)), F.Greeting(addons), failure)
  }

  /** The channel after a greeting says what the connection did. */
  lemma AfterGreetingCarries(ch: Channel, greeting: seq<F.Message>, failure: Option<nat>)
    requires F.AllHeaded(greeting)
    ensures var now, n := AfterGreeting(ch, greeting, failure), |greeting|;
            if failure.None? || failure.value >= n
            then now.cipher == ch.cipher.Skip(4 * n) && now.wire == ch.wire + F.ServerStream(ch.cipher, greeting)
            else now.cipher == ch.cipher.Skip(4 * failure.value + 4)
                 && now.wire == ch.wire + F.ServerStream(ch.cipher, greeting[..failure.value])
  {
    if failure.None? || failure.value >= |greeting| {
      ThroughAllCarries(ch, greeting);
    } else {
      ThroughAllCarries(ch, greeting[..failure.value]);
    }
  }

  /** The client enters and is greeted in full. */
  predicate Opens(visit: Visit, failure: Option<nat>) {
    visit.Entered? && (failure.None? || failure.value >= 4)
  }

  /** A panic while the client is listed: on the first read, or on a later one after a full greeting. */
  predicate Panics(visit: Visit, failure: Option<nat>) {
    visit.Crashed? || (Opens(visit, failure) && visit.aborted)
  }

  function AccountIn(visit: Visit): Option<u32> {
    if visit.Entered? then Some(visit.account) else None
  }

  function PublishedAfter(sessions: map<ClientId, nat>, session: nat, id: ClientId, visit: Visit, failure: Option<nat>): map<ClientId, nat> {
    if Opens(visit, failure) then sessions[id := session] else sessions
  }

  function QueueAfter(queue: seq<Queued>, session: nat, id: ClientId, visit: Visit, failure: Option<nat>): seq<Queued> {
    if Opens(visit, failure) then queue + Tagged(id, session, visit.packets) else queue
  }

  ghost function ShadowAfter(shadow: seq<WorldSessions.Session>, client: nat, id: ClientId, hmac: Hmac, visit: Visit, failure: Option<nat>)
    : seq<WorldSessions.Session>
  {
    if visit.Entered?
    then shadow + [WorldSessions.Session(id, client, visit.addons, NewChannel(hmac, visit.key, visit.addons, failure))]
    else shadow
  }

  ghost function AcceptorAfter(session: nat, id: ClientId, visit: Visit, failure: Option<nat>, left: bool): Acceptor {
    if left then Listening
    else if !visit.Entered? then Connected(id)
    else if Opens(visit, failure) then Piping(id, session, [])
    else Closing(id)
  }

  /** The server after a connection, whether or not the client has left yet. */
  ghost function AfterConnection(w: World, id: ClientId, hmac: Hmac, visit: Visit, failure: Option<nat>, left: bool): World {
    var c, s := |w.clients|, |w.objects|;
    World(w.clients + [Client(id, AccountIn(visit))], if left then map[] else map[id := c],
          ShadowAfter(w.objects, c, id, hmac, visit, failure), PublishedAfter(w.published, s, id, visit, failure),
          QueueAfter(w.queue, s, id, visit, failure), AcceptorAfter(s, id, visit, failure, left), w.consumer,
          w.log.(piped := QueueAfter(w.log.piped, s, id, visit, failure)))
  }

  lemma ConnectionReachable(w: World, id: ClientId, hmac: Hmac, visit: Visit, failure: Option<nat>)
    requires Reachable(w) && w.acceptor.Listening?
    ensures w.directory == map[]
    ensures Reachable(AfterConnection(w, id, hmac, visit, failure, false)) && Reachable(AfterConnection(w, id, hmac, visit, failure, true))
  {
    NobodyListed(w);
    match visit {
    case Entered(account, key, addons, packets, _) =>
      var start := StreamAt(hmac, ENCRYPT_KEY, key, DROPPED);
      var met := Met(w, id, account, start, addons, failure);
      MetReachable(w, id, account, start, addons, failure, met);
      if met.acceptor.Greeting? {
        ServedReachable(met, packets);
      }
    case _ => ArrivedReachable(w, id);
    }
    GoneReachable(AfterConnection(w, id, hmac, visit, failure, false), id);
  }

  // ---- handling the packets that are queued ----

  /** How the services answer while one packet is handled, and whether the write of its reply fails. */
  datatype Service = Service(backend: Backend, fails: bool)

  /** The front of the queue leads to a session and its client. */
  predicate FrontLeads(w: World) {
    && w.queue != [] && w.queue[0].id in w.published && w.published[w.queue[0].id] < |w.objects|
    && w.objects[w.published[w.queue[0].id]].client < |w.clients|
  }

  /** The sessions after one of them replied, if there was a reply. */
  function Replied(objects: seq<WorldSessions.Session>, s: nat, reply: Option<F.Message>, fails: bool): seq<WorldSessions.Session>
    requires s < |objects| && (reply.Some? ==> F.Headed(reply.value))
  {
    if reply.Some? then SetChannel(objects, s, Through(objects[s].channel, reply.value, fails)) else objects
  }

  /** What is on record of one packet: its reply counts as written unless the write failed. */
  function DeedOf(q: Queued, s: nat, job: Job, t: Characters.Table, fails: bool): Deed {
    Deed(q, s, job, ReplyTo(job.account, t, job.packet, job.backend).Some? && !fails)
  }

  function FrontJob(w: World, backend: Backend): Job
    requires FrontLeads(w)
  {
    Job(AccountOf(w, w.published[w.queue[0].id]), w.queue[0].packet, backend)
  }

  /** One turn of `handle_packets`: a packet without a session is dropped, and a reply whose header overflows kills the
      task while it holds the packet. */
  function AfterPacket(w: World, service: Service): World
    requires w.queue != []
  {
    if !FrontLeads(w) then w.(queue := w.queue[1..])
    else
      var q, s, job := w.queue[0], w.published[w.queue[0].id], FrontJob(w, service.backend);
      if !Answerable(job.account, w.log.table, job.packet, job.backend)
      then w.(queue := w.queue[1..], consumer := Handling(q, s, None, false))
      else
        var reply := ReplyTo(job.account, w.log.table, job.packet, job.backend);
        ReplyHeaded(job.account, w.log.table, job.packet, job.backend);
        w.(queue := w.queue[1..], objects := Replied(w.objects, s, reply, service.fails),
           log := w.log.(handled := w.log.handled + [q], table := TableAfter(job.account, w.log.table, job.packet, job.backend),
                         deeds := w.log.deeds + [DeedOf(q, s, job, w.log.table, service.fails)]))
  }

  /** A turn, if there is anything to do and anyone to do it. */
  function Turn(u: World, service: Service): World {
    if u.consumer.Waiting? && u.queue != [] then AfterPacket(u, service) else u
  }

  /** The first `k` turns. */
  function AfterFirst(w: World, services: nat -> Service, k: nat): World {
    if k == 0 then w else Turn(AfterFirst(w, services, k - 1), services(k - 1))
  }

  /** `left` more turns, the next one being number `n`. */
  function AfterRest(u: World, services: nat -> Service, n: nat, left: nat): World
    decreases left
  {
    if left == 0 then u else AfterRest(Turn(u, services(n)), services, n + 1, left - 1)
  }

  lemma OneMoreTurn(u: World, services: nat -> Service, n: nat, left: nat)
    requires left > 0
    ensures AfterRest(u, services, n, left) == AfterRest(Turn(u, services(n)), services, n + 1, left - 1)
  {
  }

  lemma TurnTaken(before: World, services: nat -> Service, n: nat, left: nat, after: World, goal: World)
    requires left > 0 && after == Turn(before, services(n)) && goal == AfterRest(before, services, n, left)
    ensures goal == if after.consumer.Waiting? then AfterRest(after, services, n + 1, left - 1) else after
  {
    if !after.consumer.Waiting? {
      DeadStays(after, services, n + 1, left - 1);
    }
  }

  lemma {:induction false} FirstThenRest(w: World, services: nat -> Service, k: nat, n: nat, u: World)
    requires k <= n && u == AfterFirst(w, services, k)
    ensures AfterRest(u, services, k, n - k) == AfterRest(w, services, 0, n)
    decreases k
  {
    if k > 0 {
      var before := AfterFirst(w, services, k - 1);
      FirstThenRest(w, services, k - 1, n, before);
      OneMoreTurn(before, services, k - 1, n - (k - 1));
    }
  }

  lemma {:induction false} DeadStays(u: World, services: nat -> Service, n: nat, left: nat)
    requires !u.consumer.Waiting?
    ensures AfterRest(u, services, n, left) == u
    decreases left
  {
    if left > 0 {
      DeadStays(u, services, n + 1, left - 1);
    }
  }

  lemma FrontFound(w: World)
    requires Reachable(w) && w.queue != []
    ensures FrontLeads(w) && AccountOf(w, w.published[w.queue[0].id]).Some?
  {
    FrontHasSession(w);
  }

  lemma TakenReachable(w: World, v: World)
    requires Reachable(w) && w.consumer.Waiting? && w.queue != [] && w.queue[0].id in w.published
    requires v == w.(queue := w.queue[1..], consumer := Handling(w.queue[0], w.published[w.queue[0].id], None, false))
    ensures Reachable(v)
  {
    var looking := w.(queue := w.queue[1..], consumer := Looking(w.queue[0]));
    Extend(w, TakePacket, looking);
    Extend(looking, Lookup, v);
  }

  /** The packet in hand, answered: on record, and its reply, if any, encrypted. */
  lemma AnswerReachable(w: World, backend: Backend, v: World)
    requires Reachable(w) && ConsumerEnabled(w, Answer(backend)) && v == Answered(w, backend)
    ensures Reachable(v)
  {
    Extend(w, Answer(backend), v);
  }

  /** The end of a packet that got no reply, or whose reply was written. */
  lemma FinishReachable(w: World, v: World)
    requires Reachable(w) && w.consumer.Handling? && w.consumer.held.None? && w.consumer.answered
    requires v == w.(log := w.log.(handled := w.log.handled + [w.consumer.q]), consumer := Waiting)
    ensures Reachable(v)
  {
    Extend(w, FinishPacket, v);
  }

  /** From an encrypted reply to the end of its packet. */
  lemma ReplyReachable(w: World, fails: bool, v: World)
    requires Reachable(w) && w.consumer.Handling? && w.consumer.held.Some? && w.consumer.answered
    requires w.consumer.session < |w.objects| && w.log.deeds != []
    requires var c, ch := w.consumer, w.objects[w.consumer.session].channel;
             v == w.(objects := SetChannel(w.objects, c.session, if fails then Failed(ch) else Written(ch, c.held.value)),
                     log := w.log.(deeds := if fails then w.log.deeds else LastWritten(w.log.deeds), handled := w.log.handled + [c.q]),
                     consumer := Waiting)
    ensures Reachable(v)
  {
    if fails {
      Extend(w, FailReply, v);
    } else {
      var sent := Step(w, WriteReply);
      Extend(w, WriteReply, sent);
      FinishReachable(sent, v);
    }
  }

  /** The packet in hand, from the work of the handler to the end. */
  lemma HandledReachable(w: World, service: Service, v: World)
    requires Reachable(w) && ConsumerEnabled(w, Answer(service.backend))
    requires var c := w.consumer;
             var job := Job(AccountOf(w, c.session), c.q.packet, service.backend);
             var reply := ReplyTo(job.account, w.log.table, job.packet, job.backend);
             && (reply.Some? ==> F.Headed(reply.value))
             && v == w.(objects := Replied(w.objects, c.session, reply, service.fails), consumer := Waiting,
                        log := w.log.(handled := w.log.handled + [c.q],
                                      table := TableAfter(job.account, w.log.table, job.packet, job.backend),
                                      deeds := w.log.deeds + [DeedOf(c.q, c.session, job, w.log.table, service.fails)]))
    ensures Reachable(v)
  {
    var c, answered := w.consumer, Answered(w, service.backend);
    var job := Job(AccountOf(w, c.session), c.q.packet, service.backend);
    AnswerReachable(w, service.backend, answered);
    LastMarked(w.log.deeds, Deed(c.q, c.session, job, false));
    if answered.consumer.held.None? {
      FinishReachable(answered, v);
    } else {
      ReplyReachable(answered, service.fails, v);
    }
  }

  lemma LastMarked(deeds: seq<Deed>, d: Deed)
    ensures LastWritten(deeds + [d]) == deeds + [d.(written := true)]
  {
  }

  /** One turn of the loop stays within the runs of the transition system. */
  lemma PacketReachable(w: World, service: Service)
    requires Reachable(w) && w.consumer.Waiting? && w.queue != []
    ensures FrontLeads(w) && Reachable(AfterPacket(w, service))
  {
    FrontFound(w);
    var q, s, job := w.queue[0], w.published[w.queue[0].id], FrontJob(w, service.backend);
    var taken := w.(queue := w.queue[1..], consumer := Handling(q, s, None, false));
    TakenReachable(w, taken);
    if Answerable(job.account, w.log.table, job.packet, job.backend) {
      ReplyHeaded(job.account, w.log.table, job.packet, job.backend);
      HandledReachable(taken, service, AfterPacket(w, service));
    }
  }

  /** In every interleaving the character names stay distinct, proper and long enough if they were so at the start. */
  lemma NamesKept(w: World)
    requires Reachable(w) && Characters.NamesInv(w.log.origin)
    ensures Characters.NamesInv(w.log.table)
  {
    var events :| Reaches(Boot(w.log.origin), events, w);
    EveryReply(events, w);
    TableKeepsNames(w.log.origin, WorldReplies.Jobs(w.log.deeds));
  }

  // ---- what becomes of the whole queue ----

  /** The account the handler finds for an id. */
  function AccountFor(w: World, id: ClientId): Option<u32> {
    if id in w.published && w.published[id] < |w.objects| && w.objects[w.published[id]].client < |w.clients|
    then AccountOf(w, w.published[id]) else None
  }

  /** What the handler is going to work on. */
  function QueuedJobs(w: World, services: nat -> Service): (jobs: seq<Job>)
    ensures |jobs| == |w.queue|
  {
    seq(|w.queue|, i requires 0 <= i < |w.queue| => Job(AccountFor(w, w.queue[i].id), w.queue[i].packet, services(i).backend))
  }

  /** Nothing about who is connected changes while packets are handled. */
  ghost predicate SameClients(w: World, u: World) {
    && u.clients == w.clients && u.published == w.published && u.log.origin == w.log.origin && u.acceptor == w.acceptor
    && |u.objects| == |w.objects|
    && forall i :: 0 <= i < |w.objects| ==>
         u.objects[i].client == w.objects[i].client && u.objects[i].channel.start == w.objects[i].channel.start
         && u.objects[i].addons == w.objects[i].addons
  }

  /** The deeds since `w`, as the queue of `w` foretold them. */
  ghost predicate Foretold(w: World, services: nat -> Service, u: World, k: nat)
    requires k <= |w.queue|
  {
    && |u.log.deeds| == |w.log.deeds| + k && u.log.deeds[..|w.log.deeds|] == w.log.deeds
    && WorldReplies.Jobs(u.log.deeds[|w.log.deeds|..]) == QueuedJobs(w, services)[..k]
    && DoneInTurn(w, u.log.deeds[|w.log.deeds|..])
  }

  /** Packet by packet of the queue, on the sessions their ids lead to. */
  ghost predicate DoneInTurn(w: World, deeds: seq<Deed>) {
    |deeds| <= |w.queue|
    && forall i :: 0 <= i < |deeds| ==>
         deeds[i].q == w.queue[i] && w.queue[i].id in w.published && deeds[i].session == w.published[w.queue[i].id]
  }

  /** The first `k` packets have been handled, and the task goes on. */
  ghost predicate HandledFirst(w: World, services: nat -> Service, u: World, k: nat)
    requires k <= |w.queue|
  {
    && u.consumer.Waiting? && u.queue == w.queue[k..] && u.log.handled == w.log.handled + w.queue[..k]
    && u.log.table == TableThrough(w.log.table, QueuedJobs(w, services)[..k])
    && SameClients(w, u) && Foretold(w, services, u, k)
  }

  lemma SameAccount(w: World, u: World, id: ClientId)
    requires SameClients(w, u)
    ensures AccountFor(u, id) == AccountFor(w, id)
  {
  }

  /** The packet in front, seen from the start of the queue. */
  lemma QueueMoves<T>(queue: seq<T>, k: nat, rest: seq<T>, done: seq<T>)
    requires k < |queue| && rest == queue[k..]
    ensures rest != [] && rest[0] == queue[k] && rest[1..] == queue[k + 1..]
    ensures (done + queue[..k]) + [queue[k]] == done + queue[..k + 1]
  {
    assert queue[..k + 1] == queue[..k] + [queue[k]];
  }

  lemma FrontForetold(w: World, services: nat -> Service, u: World, k: nat)
    requires k < |w.queue| && SameClients(w, u) && FrontLeads(u) && u.queue[0] == w.queue[k]
    ensures FrontJob(u, services(k).backend) == QueuedJobs(w, services)[k]
  {
    SameAccount(w, u, w.queue[k].id);
  }

  lemma JobsNext(jobs: seq<Job>, k: nat, t: Characters.Table)
    requires k < |jobs|
    ensures AllAnswerable(t, jobs[..k + 1])
            <==> AllAnswerable(t, jobs[..k])
                 && Answerable(jobs[k].account, TableThrough(t, jobs[..k]), jobs[k].packet, jobs[k].backend)
    ensures TableThrough(t, jobs[..k + 1])
            == TableAfter(jobs[k].account, TableThrough(t, jobs[..k]), jobs[k].packet, jobs[k].backend)
  {
    assert jobs[..k + 1][..k] == jobs[..k];
  }

  /** One more packet: handled, or the end of the task. */
  lemma OneMoreHandled(w: World, services: nat -> Service, u: World, k: nat, v: World)
    requires k < |w.queue| && HandledFirst(w, services, u, k) && FrontLeads(u) && v == AfterPacket(u, services(k))
    ensures var job := QueuedJobs(w, services)[k];
            if Answerable(job.account, u.log.table, job.packet, job.backend) then HandledFirst(w, services, v, k + 1)
            else !v.consumer.Waiting?
  {
    var job := QueuedJobs(w, services)[k];
    QueueMoves(w.queue, k, u.queue, w.log.handled);
    FrontForetold(w, services, u, k);
    JobsNext(QueuedJobs(w, services), k, w.log.table);
    if Answerable(job.account, u.log.table, job.packet, job.backend) {
      OneMoreDeed(w, services, u, k, v);
    }
  }

  lemma OneMoreDeed(w: World, services: nat -> Service, u: World, k: nat, v: World)
    requires k < |w.queue| && SameClients(w, u) && Foretold(w, services, u, k) && FrontLeads(u) && u.queue[0] == w.queue[k]
    requires v == AfterPacket(u, services(k)) && FrontJob(u, services(k).backend) == QueuedJobs(w, services)[k]
    requires var job := QueuedJobs(w, services)[k]; Answerable(job.account, u.log.table, job.packet, job.backend)
    ensures SameClients(w, v) && Foretold(w, services, v, k + 1)
  {
    var job := QueuedJobs(w, services)[k];
    var d := DeedOf(w.queue[k], u.published[w.queue[k].id], job, u.log.table, services(k).fails);
    assert v.log.deeds == u.log.deeds + [d];
    DeedForetold(w, services, u.log.deeds, k, d);
    ReplyHeaded(job.account, u.log.table, job.packet, job.backend);
  }

  lemma DeedForetold(w: World, services: nat -> Service, deeds: seq<Deed>, k: nat, d: Deed)
    requires k < |w.queue| && |deeds| == |w.log.deeds| + k && deeds[..|w.log.deeds|] == w.log.deeds
    requires WorldReplies.Jobs(deeds[|w.log.deeds|..]) == QueuedJobs(w, services)[..k] && DoneInTurn(w, deeds[|w.log.deeds|..])
    requires d.q == w.queue[k] && d.q.id in w.published && d.session == w.published[d.q.id] && d.job == QueuedJobs(w, services)[k]
    ensures var more := (deeds + [d])[|w.log.deeds|..];
            && (deeds + [d])[..|w.log.deeds|] == w.log.deeds
            && WorldReplies.Jobs(more) == QueuedJobs(w, services)[..k + 1] && DoneInTurn(w, more)
  {
    RecordGrows(w.log.deeds, deeds, d);
    OneMoreInTurn(w, deeds[|w.log.deeds|..], d);
    NextPrefix(QueuedJobs(w, services), k);
  }

  lemma NextPrefix<T>(s: seq<T>, k: nat)
    requires k < |s|
    ensures s[..k + 1] == s[..k] + [s[k]]
  {
  }

  lemma OneMoreInTurn(w: World, deeds: seq<Deed>, d: Deed)
    requires DoneInTurn(w, deeds) && |deeds| < |w.queue|
    requires d.q == w.queue[|deeds|] && d.q.id in w.published && d.session == w.published[d.q.id]
    ensures DoneInTurn(w, deeds + [d])
  {
  }

  lemma RecordGrows(first: seq<Deed>, deeds: seq<Deed>, d: Deed)
    requires |first| <= |deeds| && deeds[..|first|] == first
    ensures var more := deeds + [d];
            && more[..|first|] == first && more[|first|..] == deeds[|first|..] + [d]
            && WorldReplies.Jobs(more[|first|..]) == WorldReplies.Jobs(deeds[|first|..]) + [d.job]
  {
    JobsAppend(deeds[|first|..], d);
    assert (deeds + [d])[|first|..] == deeds[|first|..] + [d];
  }

  lemma OneTurn(w: World, services: nat -> Service, u: World, k: nat)
    requires k < |w.queue| && Reachable(u) && HandledFirst(w, services, u, k)
    requires AllAnswerable(w.log.table, QueuedJobs(w, services)[..k])
    ensures var v := Turn(u, services(k));
            && Reachable(v)
            && (v.consumer.Waiting? <==> AllAnswerable(w.log.table, QueuedJobs(w, services)[..k + 1]))
            && (v.consumer.Waiting? ==> HandledFirst(w, services, v, k + 1))
  {
    PacketReachable(u, services(k));
    OneMoreHandled(w, services, u, k, AfterPacket(u, services(k)));
    JobsNext(QueuedJobs(w, services), k, w.log.table);
  }

  /** The exact condition: the handling task gets through the first `k` packets if and only if none of them asks for a list
      that overflows its header; and then it has handled exactly those, in order, none dropped. */
  lemma {:induction false} FirstHandled(w: World, services: nat -> Service, k: nat)
    requires Reachable(w) && w.consumer.Waiting? && k <= |w.queue|
    ensures var u := AfterFirst(w, services, k);
            && Reachable(u)
            && (u.consumer.Waiting? <==> AllAnswerable(w.log.table, QueuedJobs(w, services)[..k]))
            && (u.consumer.Waiting? ==> HandledFirst(w, services, u, k))
  {
    if k > 0 {
      FirstHandled(w, services, k - 1);
      var u := AfterFirst(w, services, k - 1);
      JobsNext(QueuedJobs(w, services), k - 1, w.log.table);
      if u.consumer.Waiting? {
        OneTurn(w, services, u, k - 1);
      }
    }
  }

  /** For the whole queue: the task survives if and only if no list overflows, and then every packet has been handled. */
  lemma EverythingHandled(w: World, services: nat -> Service, end: World)
    requires Reachable(w) && w.consumer.Waiting? && end == AfterFirst(w, services, |w.queue|)
    ensures Reachable(end)
    ensures end.consumer.Waiting? <==> AllAnswerable(w.log.table, QueuedJobs(w, services))
    ensures end.consumer.Waiting? ==>
              && end.queue == [] && end.log.handled == w.log.handled + w.queue
              && end.log.table == TableThrough(w.log.table, QueuedJobs(w, services))
              && HandledFirst(w, services, end, |w.queue|)
  {
    FirstHandled(w, services, |w.queue|);
    assert QueuedJobs(w, services)[..|w.queue|] == QueuedJobs(w, services) && w.queue[..|w.queue|] == w.queue;
  }

  // ---- an honest client's whole session ----

  /** Since `from`, no write failed. */
  ghost predicate Clean(w: World, u: World) {
    && |w.log.deeds| <= |u.log.deeds| && |u.objects| == |w.objects|
    && AllDelivered(u.log.origin, u.log.deeds, |w.log.deeds|)
    && forall i :: 0 <= i < |w.objects| ==> u.objects[i].channel.failed == w.objects[i].channel.failed
  }

  lemma ReachableRecord(w: World)
    requires Reachable(w)
    ensures Recorded(w) && AllTold(w) && GreetedFirst(w)
  {
    var events :| Reaches(Boot(w.log.origin), events, w);
    EveryReply(events, w);
  }

  /** What handling one packet puts on record. */
  lemma PacketRecord(u: World, service: Service, v: World)
    requires u.queue != [] && v == AfterPacket(u, service)
    ensures v.log.origin == u.log.origin && |v.objects| == |u.objects|
    ensures !service.fails ==> forall i :: 0 <= i < |u.objects| ==> v.objects[i].channel.failed == u.objects[i].channel.failed
    ensures v.log.deeds != u.log.deeds ==>
              && FrontLeads(u)
              && var d := DeedOf(u.queue[0], u.published[u.queue[0].id], FrontJob(u, service.backend), u.log.table, service.fails);
                 v.log.deeds == u.log.deeds + [d]
  {
  }

  lemma PacketClean(w: World, u: World, service: Service, v: World)
    requires Clean(w, u) && u.queue != [] && v == AfterPacket(u, service) && !service.fails
    requires u.log.table == TableThrough(u.log.origin, WorldReplies.Jobs(u.log.deeds))
    ensures Clean(w, v)
  {
    PacketRecord(u, service, v);
    if v.log.deeds != u.log.deeds {
      StillClean(w, u, v, DeedOf(u.queue[0], u.published[u.queue[0].id], FrontJob(u, service.backend), u.log.table, service.fails));
    }
  }

  lemma StillClean(w: World, u: World, v: World, d: Deed)
    requires Clean(w, u) && v.log.origin == u.log.origin && |v.objects| == |u.objects| && v.log.deeds == u.log.deeds + [d]
    requires forall i :: 0 <= i < |u.objects| ==> v.objects[i].channel.failed == u.objects[i].channel.failed
    requires u.log.table == TableThrough(u.log.origin, WorldReplies.Jobs(u.log.deeds))
    requires ReplyTo(d.job.account, u.log.table, d.job.packet, d.job.backend).Some? ==> d.written
    ensures Clean(w, v)
  {
    DeliveredNext(u.log.origin, u.log.deeds, d, |w.log.deeds|);
  }

  lemma TurnClean(w: World, u: World, service: Service)
    requires Clean(w, u) && Reachable(u) && !service.fails
    ensures Clean(w, Turn(u, service))
  {
    ReachableRecord(u);
    if u.consumer.Waiting? && u.queue != [] {
      PacketClean(w, u, service, AfterPacket(u, service));
    }
  }

  lemma {:induction false} CleanRun(w: World, services: nat -> Service, k: nat)
    requires Reachable(w) && w.consumer.Waiting? && k <= |w.queue| && forall i :: !services(i).fails
    ensures Clean(w, AfterFirst(w, services, k))
  {
    if k > 0 {
      CleanRun(w, services, k - 1);
      FirstHandled(w, services, k - 1);
      TurnClean(w, AfterFirst(w, services, k - 1), services(k - 1));
    }
  }

  lemma {:induction false} ThroughAllSent(ch: Channel, messages: seq<F.Message>)
    requires F.AllHeaded(messages)
    ensures var now := ThroughAll(ch, messages);
            now.start == ch.start && now.failed == ch.failed && now.sent == ch.sent + messages
  {
    if messages != [] {
      var last := |messages| - 1;
      ThroughAllSent(ch, messages[..last]);
      Regroup(ch.sent, messages[..last], [messages[last]]);
      assert messages[..last] + [messages[last]] == messages;
    }
  }

  /** The session of a client that entered and was greeted in full. */
  lemma NewSession(w: World, id: ClientId, hmac: Hmac, visit: Visit, v: World)
    requires visit.Entered? && v == AfterConnection(w, id, hmac, visit, None, true)
    ensures |v.objects| == |w.objects| + 1
    ensures var ch := v.objects[|w.objects|].channel;
            && ch.start == StreamAt(hmac, ENCRYPT_KEY, visit.key, DROPPED) && !ch.failed
            && ch.sent == F.Greeting(visit.addons)
    ensures v.objects[|w.objects|].addons == visit.addons
  {
    var greeting := F.Greeting(visit.addons);
    F.GreetingWritable(visit.addons, greeting);
    ThroughAllSent(Open(StreamAt(hmac, ENCRYPT_KEY, visit.key, DROPPED)), greeting);
    assert [] + greeting == greeting;
  }

  /** Wherever a run ends, a session none of whose writes failed is read back by its client. */
  lemma ReadBack(w: World, s: nat)
    requires Reachable(w) && s < |w.objects| && !w.objects[s].channel.failed
    ensures var ch := w.objects[s].channel;
            F.ClientReads(ch.start, ch.wire) == Some(ch.sent) <==> F.AllFit(ch.sent)
  {
    var events :| Reaches(Boot(w.log.origin), events, w);
    WireOrder(events, w, s);
  }

  /** A client's packets as jobs of the handler, the services counted from `n`. */
  function OwnJobs(account: u32, packets: seq<ClientPacket>, services: nat -> Service, n: nat): (jobs: seq<Job>)
    ensures |jobs| == |packets|
  {
    seq(|packets|, i requires 0 <= i < |packets| => Job(Some(account), packets[i], services(n + i).backend))
  }

  /** A client has entered, its session is published and its packets are queued. */
  ghost predicate JoinedBy(w: World, v: World, id: ClientId, account: u32, packets: seq<ClientPacket>) {
    && v.published == w.published[id := |w.objects|] && v.clients == w.clients + [Client(id, Some(account))]
    && |v.objects| == |w.objects| + 1 && v.objects[..|w.objects|] == w.objects && v.objects[|w.objects|].client == |w.clients|
    && v.queue == w.queue + Tagged(id, |w.objects|, packets)
    && v.log.deeds == w.log.deeds && v.log.table == w.log.table && v.log.handled == w.log.handled && v.log.origin == w.log.origin
    && v.consumer == w.consumer
  }

  lemma EnteredJoins(w: World, id: ClientId, hmac: Hmac, visit: Visit, v: World)
    requires visit.Entered? && v == AfterConnection(w, id, hmac, visit, None, true)
    ensures JoinedBy(w, v, id, visit.account, visit.packets)
  {
  }

  /** Who answers packet `i` of the queue. */
  lemma WhoAnswers(w: World, v: World, id: ClientId, account: u32, packets: seq<ClientPacket>, i: nat)
    requires Inv(w) && JoinedBy(w, v, id, account, packets) && i < |v.queue| && (i < |w.queue| ==> w.queue[i].id != id)
    ensures v.queue[i].id in v.published && (v.published[v.queue[i].id] == |w.objects| <==> i >= |w.queue|)
    ensures AccountFor(v, v.queue[i].id) == if i < |w.queue| then AccountFor(w, w.queue[i].id) else Some(account)
  {
    if i < |w.queue| {
      var q := w.queue[i];
      assert v.queue[i] == q && q in w.queue && q.id in w.published && v.published[q.id] == w.published[q.id];
      assert Owned(w.clients, w.objects[w.published[q.id]]);
      assert v.objects[w.published[q.id]] == w.objects[w.published[q.id]];
    } else {
      assert v.queue[i] == Tagged(id, |w.objects|, packets)[i - |w.queue|];
    }
  }

  /** Behind the packets that wait, which are under other ids, stand exactly the client's own. */
  lemma QueueSplits(w: World, v: World, id: ClientId, account: u32, packets: seq<ClientPacket>, services: nat -> Service)
    requires Inv(w) && JoinedBy(w, v, id, account, packets) && forall i :: 0 <= i < |w.queue| ==> w.queue[i].id != id
    ensures QueuedJobs(v, services) == QueuedJobs(w, services) + OwnJobs(account, packets, services, |w.queue|)
  {
    var jobs := QueuedJobs(w, services) + OwnJobs(account, packets, services, |w.queue|);
    forall i | 0 <= i < |v.queue|
      ensures QueuedJobs(v, services)[i] == jobs[i]
    {
      WhoAnswers(w, v, id, account, packets, i);
      if i >= |w.queue| {
        assert v.queue[i] == Tagged(id, |w.objects|, packets)[i - |w.queue|];
      }
    }
  }

  /** The deeds behind the ones at hand when a client came: those of the packets that waited, then its own. */
  lemma DeedsSplit(w: World, v: World, id: ClientId, account: u32, packets: seq<ClientPacket>, deeds: seq<Deed>, j: nat)
    requires Inv(w) && Recorded(w) && JoinedBy(w, v, id, account, packets)
    requires forall i :: 0 <= i < |w.queue| ==> w.queue[i].id != id
    requires DoneInTurn(v, deeds) && j < |w.log.deeds| + |deeds|
    ensures (w.log.deeds + deeds)[j].session == |w.objects| <==> j >= |w.log.deeds| + |w.queue|
  {
    if j < |w.log.deeds| {
      assert DoneOn(w.clients, w.objects, w.log.deeds[j]);
    } else {
      var i := j - |w.log.deeds|;
      assert deeds[i].session == v.published[v.queue[i].id];
      WhoAnswers(w, v, id, account, packets, i);
    }
  }

  /** The newcomer's jobs as they are on record. */
  lemma NewcomerJobs(before: seq<Deed>, deeds: seq<Deed>, after: seq<Deed>, others: seq<Job>, own: seq<Job>, from: nat)
    requires WorldReplies.Jobs(deeds) == others + own && after == before + deeds && from == |before| + |others|
    ensures from <= |after| && WorldReplies.Jobs(after)[from..] == own
    ensures WorldReplies.Jobs(after[..from]) == WorldReplies.Jobs(before) + others
  {
    var first := WorldReplies.Jobs(before);
    JobsConcat(before, deeds);
    Regroup(first, others, own);
    TwoParts(WorldReplies.Jobs(after), first + others, own);
    JobsPrefix(after, from);
  }

  /** The table they start from. */
  lemma NewcomerTable(origin: Characters.Table, before: seq<Job>, others: seq<Job>, jobs: seq<Job>, table: Characters.Table)
    requires table == TableThrough(origin, before) && jobs == before + others
    ensures TableThrough(origin, jobs) == TableThrough(table, others)
  {
    TableSplit(origin, before, others);
  }

  /** What session `s` replied, if its jobs are the last ones on record. */
  lemma AnswersOnRecord(origin: Characters.Table, table: Characters.Table, after: seq<Deed>, from: nat, own: seq<Job>, s: nat)
    requires from <= |after| && WorldReplies.Jobs(after)[from..] == own
    requires TableThrough(origin, WorldReplies.Jobs(after[..from])) == table
    requires AllDelivered(origin, after, from)
    requires forall j :: 0 <= j < |after| ==> (after[j].session == s <==> j >= from)
    ensures RepliesBy(origin, after, s) == Answers(table, own)
  {
    RepliesAreAnswers(origin, after, from, s);
  }

  /** What a newcomer is answered: its own packets, on the table the others left. */
  lemma NewcomerReplies(w: World, v: World, id: ClientId, account: u32, packets: seq<ClientPacket>, services: nat -> Service,
                        deeds: seq<Deed>, after: seq<Deed>)
    requires Inv(w) && Recorded(w) && JoinedBy(w, v, id, account, packets) && after == w.log.deeds + deeds
    requires forall i :: 0 <= i < |w.queue| ==> w.queue[i].id != id
    requires WorldReplies.Jobs(deeds) == QueuedJobs(v, services) && DoneInTurn(v, deeds)
    requires AllDelivered(w.log.origin, after, |w.log.deeds|)
    ensures RepliesBy(w.log.origin, after, |w.objects|)
            == Answers(TableThrough(w.log.table, QueuedJobs(w, services)), OwnJobs(account, packets, services, |w.queue|))
  {
    var others, own, from := QueuedJobs(w, services), OwnJobs(account, packets, services, |w.queue|), |w.log.deeds| + |w.queue|;
    QueueSplits(w, v, id, account, packets, services);
    NewcomerJobs(w.log.deeds, deeds, after, others, own, from);
    NewcomerTable(w.log.origin, WorldReplies.Jobs(w.log.deeds), others, WorldReplies.Jobs(after[..from]), w.log.table);
    forall j | 0 <= j < |after|
      ensures after[j].session == |w.objects| <==> j >= from
    {
      DeedsSplit(w, v, id, account, packets, deeds, j);
    }
    LaterDelivered(w.log.origin, after, |w.log.deeds|, from);
    AnswersOnRecord(w.log.origin, TableThrough(w.log.table, others), after, from, own, |w.objects|);
  }

  lemma NewcomerAnswered(w: World, v: World, id: ClientId, account: u32, packets: seq<ClientPacket>, services: nat -> Service, end: World)
    requires Inv(w) && Recorded(w) && JoinedBy(w, v, id, account, packets)
    requires forall i :: 0 <= i < |w.queue| ==> w.queue[i].id != id
    requires Foretold(v, services, end, |v.queue|) && AllDelivered(w.log.origin, end.log.deeds, |w.log.deeds|)
    ensures RepliesBy(w.log.origin, end.log.deeds, |w.objects|)
            == Answers(TableThrough(w.log.table, QueuedJobs(w, services)), OwnJobs(account, packets, services, |w.queue|))
  {
    var deeds, jobs := end.log.deeds[|w.log.deeds|..], QueuedJobs(v, services);
    assert end.log.deeds == w.log.deeds + deeds && jobs[..|v.queue|] == jobs;
    NewcomerReplies(w, v, id, account, packets, services, deeds, end.log.deeds);
  }

  /** What a newcomer has been sent once everything is handled. */
  lemma NewcomerTold(w: World, v: World, id: ClientId, account: u32, packets: seq<ClientPacket>, services: nat -> Service, end: World)
    requires Reachable(w) && Reachable(v) && JoinedBy(w, v, id, account, packets) && v.consumer.Waiting?
    requires (forall i :: 0 <= i < |w.queue| ==> w.queue[i].id != id) && forall i :: !services(i).fails
    requires end == AfterFirst(v, services, |v.queue|) && end.consumer.Waiting?
    ensures SameClients(v, end) && Clean(v, end) && Reachable(end)
    ensures end.objects[|w.objects|].channel.sent
            == F.Greeting(v.objects[|w.objects|].addons)
               + Answers(TableThrough(w.log.table, QueuedJobs(w, services)), OwnJobs(account, packets, services, |w.queue|))
  {
    ReachableInv(w);
    ReachableRecord(w);
    FirstHandled(v, services, |v.queue|);
    CleanRun(v, services, |v.queue|);
    NewcomerAnswered(w, v, id, account, packets, services, end);
    ReachableRecord(end);
    SpeechWhole(end, id, |w.objects|);
  }

  /** A published session has its whole greeting behind it. */
  lemma SpeechWhole(u: World, id: ClientId, s: nat)
    requires AllTold(u) && GreetedFirst(u) && id in u.published && u.published[id] == s && s < |u.objects|
    ensures u.objects[s].channel.sent == F.Greeting(u.objects[s].addons) + RepliesBy(u.log.origin, u.log.deeds, s)
  {
    assert Told(u, s) && FullyGreeted(u.objects, s);
    assert F.Greeting(u.objects[s].addons)[..4] == F.Greeting(u.objects[s].addons);
  }

  /** A client that entered, whose id no waiting packet carries, while no write fails: the handling task survives exactly
      if no list overflows its header, on the table as it is when the packet's turn comes; then everything is handled, and
      the client has been sent its greeting and the handler's answers to its own packets, which it reads under its own key
      if and only if their bodies fit. */
  lemma ServedClientReads(w: World, id: ClientId, hmac: Hmac, visit: Visit, services: nat -> Service, v: World, end: World,
                          others: seq<Job>, own: seq<Job>)
    requires Reachable(w) && w.acceptor.Listening? && w.consumer.Waiting?
    requires (forall i :: 0 <= i < |w.queue| ==> w.queue[i].id != id) && forall i :: !services(i).fails
    requires visit.Entered? && v == AfterConnection(w, id, hmac, visit, None, true)
    requires others == QueuedJobs(w, services) && own == OwnJobs(visit.account, visit.packets, services, |w.queue|)
    requires end == AfterFirst(v, services, |v.queue|)
    ensures end.consumer.Waiting? <==> AllAnswerable(w.log.table, others + own)
    ensures end.consumer.Waiting? ==>
              && end.queue == [] && end.log.handled == w.log.handled + v.queue && |end.objects| == |w.objects| + 1
              && var ch, messages := end.objects[|w.objects|].channel,
                                     F.Greeting(visit.addons) + Answers(TableThrough(w.log.table, others), own);
                 && ch.sent == messages
                 && (F.ClientReads(Down(hmac, visit.key), ch.wire) == Some(messages) <==> F.AllFit(messages))
  {
    ConnectionReachable(w, id, hmac, visit, None);
    NewSession(w, id, hmac, visit, v);
    EnteredJoins(w, id, hmac, visit, v);
    ReachableInv(w);
    QueueSplits(w, v, id, visit.account, visit.packets, services);
    EverythingHandled(v, services, end);
    if end.consumer.Waiting? {
      SameStreams(hmac, visit.key);
      NewcomerTold(w, v, id, visit.account, visit.packets, services, end);
      ReadBack(end, |w.objects|);
    }
  }

  /** The request of a crowd's owner is the end of the task. */
  lemma CrowdAsks(w: World, services: nat -> Service)
    requires |w.queue| == 1 && w.queue[0].packet == CharEnum && FrontLeads(w) && w.consumer.Waiting?
    requires AccountOf(w, w.published[w.queue[0].id]) == Some(1) && w.log.table == CharacterList.Crowd(1)
    requires services(0).backend.scan == Some(CharacterList.CrowdScan(240))
    ensures !AllAnswerable(w.log.table, QueuedJobs(w, services)) && AfterFirst(w, services, 1).consumer.Handling?
  {
    var jobs := QueuedJobs(w, services);
    CharacterList.CrowdTooLong(1);
    assert jobs[0] == FrontJob(w, services(0).backend) && jobs[..1] == jobs && jobs[..0] == [];
    JobsNext(jobs, 0, w.log.table);
    assert AfterFirst(w, services, 0) == w;
  }

  /** The other case is real too: an account with 240 characters, all properly named, none with more than four letters, asks
      for its list, and the handling task dies. */
  lemma HandlingMayPanic(first: World, id: ClientId, hmac: Hmac, key: Bytes40, auth: ClientPacket, services: nat -> Service)
    returns (events: seq<WorldSessions.Event>, w: World)
    requires first == Boot(CharacterList.Crowd(1)) && auth.AuthSessionPacket?
    requires services(0).backend.scan == Some(CharacterList.CrowdScan(240))
    ensures Reaches(first, events, w) && Characters.NamesInv(first.log.origin) && w.acceptor.Listening? && w.consumer.Waiting?
    ensures |w.queue| == 1 && w.queue[0].packet == CharEnum
    ensures !AllAnswerable(w.log.table, QueuedJobs(w, services)) && AfterFirst(w, services, 1).consumer.Handling?
  {
    CharacterList.CrowdNames(1);
    events, w := ConnectionMade(first, [], first, id, auth, StreamAt(hmac, ENCRYPT_KEY, key, DROPPED), [CharEnum]);
    events, w := LastPacket(first, events, w, CharEnum);
    CrowdAsks(w, services);
  }

  /** End to end: a client that opens with the account and digest of its key and then says anything in any batches of
      encrypted frames has exactly what it said queued under its own session. The handling task gets through that, and
      through whatever waited before, exactly if no list overflows its header; then the client reads back its greeting and
      the handler's answers to its own packets, if and only if their bodies fit. */
  lemma HonestSession(w: World, id: ClientId, lib: Library, sha: Sha1, hmac: Hmac, accounts: Accounts, realmId: u32, seed: Bytes4,
                      account: u32, name: seq<byte>, own: Bytes40, o: Opening, batches: seq<seq<Command>>, first: seq<byte>,
                      raws: seq<seq<byte>>, services: nat -> Service, visit: Visit, v: World, end: World)
    returns (others: seq<Job>, jobs: seq<Job>)
    requires Reachable(w) && w.acceptor.Listening? && w.consumer.Waiting?
    requires (forall i :: 0 <= i < |w.queue| ==> w.queue[i].id != id) && forall i :: !services(i).fails
    requires accounts(o.username) == Some(Account(account, name, Some(own))) && o.fields.realmId == realmId
    requires o.fields.clientProof == sha(name + [0, 0, 0, 0] + o.fields.localChallenge + seed + own)
    requires Presentable(lib, o) && first == F.EncodeFrames(None, [OpeningFrame(o)])
    requires Talks(lib, batches) && raws == EncodeBatches(Up(hmac, own), AllFrames(lib, batches))
    requires visit == VisitOf(lib, sha, hmac, accounts, realmId, seed, [first] + raws)
    requires v == AfterConnection(w, id, hmac, visit, None, true) && end == AfterFirst(v, services, |v.queue|)
    ensures v.queue == w.queue + Tagged(id, |w.objects|, Spoken(batches))
    ensures v.published == w.published[id := |w.objects|] && v.clients == w.clients + [Client(id, Some(account))]
    ensures others == QueuedJobs(w, services) && jobs == OwnJobs(account, Spoken(batches), services, |w.queue|)
    ensures end.consumer.Waiting? <==> AllAnswerable(w.log.table, others + jobs)
    ensures end.consumer.Waiting? ==>
              && end.queue == [] && end.log.handled == w.log.handled + v.queue && |end.objects| == |w.objects| + 1
              && var messages := F.Greeting(ReceivedAll(o.addons)) + Answers(TableThrough(w.log.table, others), jobs);
                 F.ClientReads(Down(hmac, own), end.objects[|w.objects|].channel.wire) == Some(messages) <==> F.AllFit(messages)
  {
    HonestVisit(lib, sha, hmac, accounts, realmId, seed, account, name, own, o, batches, first, raws);
    others, jobs := QueuedJobs(w, services), OwnJobs(account, Spoken(batches), services, |w.queue|);
    ServedClientReads(w, id, hmac, visit, services, v, end, others, jobs);
  }
}
