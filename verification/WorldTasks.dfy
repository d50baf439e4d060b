/** The two tasks of the world server as code (services/world/src/worldserver.rs, `accept_clients` and `connect_loop`;
    services/world/src/world/world.rs, `create_session` and `handle_packets`), from the bytes of a client's reads to the
    bytes of the replies. Each loop runs undisturbed here, and everything it does is a run of the transition system of
    `WorldSessions`, which has every interleaving. */
module WorldTasks {
  import opened Bytes
  import opened Parsing
  import opened Srp
  import opened HeaderEncryption
  import opened WorldPackets
  import opened WorldChannel
  import opened WorldSessions
  import opened WorldLogin
  import opened WorldHandler
  import opened WorldRuns
  import F = WorldFrames
  import Characters

  /** A session as the server shares it: whose it is, and its connection. */
  datatype Entry = Entry(clientId: ClientId, client: nat, link: F.Session)

  /** The connection is where its channel says. */
  ghost predicate Carried(link: F.Session, ch: Channel)
    reads link, link.encryption
  {
    link.encryption.Valid() && link.encryption.EncryptCursor() == ch.cipher && link.stream == ch.wire
  }

  /** The objects behind some sessions. */
  ghost function Links(objects: seq<Entry>): set<object> {
    (set i | 0 <= i < |objects| :: objects[i].link as object) + (set i | 0 <= i < |objects| :: objects[i].link.encryption as object)
  }

  /** Every session has a connection of its own that carries what its channel says. */
  ghost predicate Linked(objects: seq<Entry>, shadow: seq<WorldSessions.Session>)
    reads Links(objects)
  {
    && |shadow| == |objects|
    && (forall i :: 0 <= i < |objects| ==> shadow[i].clientId == objects[i].clientId && shadow[i].client == objects[i].client)
    && (forall i :: 0 <= i < |objects| ==> Carried(objects[i].link, shadow[i].channel))
    && (forall i, j :: 0 <= i < j < |objects| ==>
          objects[i].link != objects[j].link && objects[i].link.encryption != objects[j].link.encryption)
  }

  lemma PacketsStep(lib: Library, cipher: Cursor, raws: seq<seq<byte>>, i: nat)
    requires i < |raws|
    ensures var read := F.FramesFrom(F.PacketDecoder(lib), Some(cipher), raws[i]);
            PacketsIn(lib, cipher, raws[i..])
            == if raws[i] != [] && read.packets.Decoded? && read.cipher.Some?
               then read.packets.value + PacketsIn(lib, read.cipher.value, raws[i + 1..]) else []
    ensures var read := F.FramesFrom(F.PacketDecoder(lib), Some(cipher), raws[i]);
            AbortsIn(lib, cipher, raws[i..])
            <==> raws[i] != [] && (read.packets.Abort?
                                   || (read.packets.Decoded? && read.cipher.Some? && AbortsIn(lib, read.cipher.value, raws[i + 1..])))
  {
    assert raws[i..][0] == raws[i] && raws[i..][1..] == raws[i + 1..];
  }

  class WorldServer {
    const lib: Library
    const sha: Sha1
    const hmac: Hmac
    const realmId: u32
    const seed: Bytes4
    const characters: Characters.CharacterService

    var clients: seq<Client>
    var directory: map<ClientId, nat>
    var objects: seq<Entry>
    var sessions: map<ClientId, nat>
    var queue: seq<Queued>

    // the server as the transition system sees it
    ghost var world: World

    /** The transition system can get there, and the server is where it says. */
    ghost predicate Valid()
      reads this, Links(objects), characters
    {
      && Linked(objects, world.objects) && Reachable(world) && characters.characters == world.log.table
      && clients == world.clients && directory == world.directory && sessions == world.published && queue == world.queue
    }

    constructor (lib: Library, sha: Sha1, hmac: Hmac, realmId: u32, seed: Bytes4, characters: Characters.CharacterService)
      ensures this.lib == lib && this.sha == sha && this.hmac == hmac && this.realmId == realmId && this.seed == seed
      ensures this.characters == characters && Valid() && world == Boot(characters.characters)
    {
      this.lib, this.sha, this.hmac, this.realmId, this.seed, this.characters := lib, sha, hmac, realmId, seed, characters;
      clients, directory, objects, sessions, queue := [], map[], [], map[], [];
      world := Boot(characters.characters);
      new;
      assert Reaches(Boot(world.log.origin), [], world);
    }

    // ---- the accepting task ----

    /** `receive_packet` for every packet of a read. */
    method QueueAll(id: ClientId, session: nat, packets: seq<ClientPacket>)
      requires session < |objects| && objects[session].clientId == id
      modifies this`queue
      ensures queue == old(queue) + Tagged(id, session, packets)
    {
      for i := 0 to |packets|
        invariant queue == old(queue) + Tagged(id, session, packets[..i])
      {
        queue := queue + [Queued(objects[session].clientId, packets[i], session)];
        assert Tagged(id, session, packets[..i + 1]) == Tagged(id, session, packets[..i]) + [Queued(id, packets[i], session)];
      }
      assert packets[..|packets|] == packets;
    }

    /** One turn of the loop at the end of `connect_loop`: read, decrypt, queue. `todo` is everything still to be queued,
        `news` what was queued, `rest` what remains. */
    method ReadOnce(id: ClientId, session: nat, link: F.Session, raws: seq<seq<byte>>, i: nat, ghost todo: seq<ClientPacket>)
      returns (r: Outcome<bool>, ghost news: seq<ClientPacket>, ghost rest: seq<ClientPacket>)
      requires link.encryption.Valid() && session < |objects| && objects[session].clientId == id && i < |raws| && |raws[i]| <= 2048
      requires todo == PacketsIn(lib, link.encryption.DecryptCursor(), raws[i..])
      modifies this`queue, link.encryption
      ensures link.encryption.Valid() && link.encryption.EncryptCursor() == old(link.encryption.EncryptCursor())
      ensures queue == old(queue) + Tagged(id, session, news) && todo == news + rest
      ensures r.Returned? && r.value ==> rest == PacketsIn(lib, link.encryption.DecryptCursor(), raws[i + 1..])
      ensures !(r.Returned? && r.value) ==> rest == []
      ensures AbortsIn(lib, old(link.encryption.DecryptCursor()), raws[i..])
              <==> r.Panicked? || (r.value && AbortsIn(lib, link.encryption.DecryptCursor(), raws[i + 1..]))
    {
      PacketsStep(lib, link.encryption.DecryptCursor(), raws, i);
      var packets := F.ReadPackets(lib, link.encryption, raws[i]);
      if !packets.Decoded? {
        r, news, rest := if packets.Abort? then Panicked else Returned(false), [], [];
        return;
      }
      news, rest := packets.value, PacketsIn(lib, link.encryption.DecryptCursor(), raws[i + 1..]);
      QueueAll(id, session, packets.value);
      r := Returned(true);
    }

    /** The loop itself: exactly the packets of the reads, up to the first that fails, are queued. */
    method ReadAll(id: ClientId, session: nat, link: F.Session, raws: seq<seq<byte>>) returns (r: Outcome<()>)
      requires link.encryption.Valid() && session < |objects| && objects[session].clientId == id
      requires forall raw :: raw in raws ==> |raw| <= 2048
      modifies this`queue, link.encryption
      ensures link.encryption.Valid() && link.encryption.EncryptCursor() == old(link.encryption.EncryptCursor())
      ensures queue == old(queue) + Tagged(id, session, PacketsIn(lib, old(link.encryption.DecryptCursor()), raws))
      ensures r.Panicked? <==> AbortsIn(lib, old(link.encryption.DecryptCursor()), raws)
    {
      ghost var aborts := AbortsIn(lib, link.encryption.DecryptCursor(), raws);
      ghost var todo := PacketsIn(lib, link.encryption.DecryptCursor(), raws);
      ghost var goal := queue + Tagged(id, session, todo);
      assert raws[0..] == raws;
      for i := 0 to |raws|
        invariant link.encryption.Valid() && link.encryption.EncryptCursor() == old(link.encryption.EncryptCursor())
        invariant aborts == AbortsIn(lib, link.encryption.DecryptCursor(), raws[i..])
        invariant todo == PacketsIn(lib, link.encryption.DecryptCursor(), raws[i..]) && goal == queue + Tagged(id, session, todo)
      {
        ghost var was := queue;
        var read, news, rest := ReadOnce(id, session, link, raws, i, todo);
        TaggedAppend(was, id, session, news, rest);
        todo := rest;
        if !(read.Returned? && read.value) {
          NothingTagged(queue, id, session);
          return if read.Panicked? then Panicked else Returned(());
        }
      }
      NothingTagged(queue, id, session);
      r := Returned(());
    }

    /** `handle_auth_session` once its checks have passed, and `create_session` up to the insertion: the account is set,
        and the new session has greeted its client or failed to. */
    method CreateSession(id: ClientId, let: Contact, failure: Option<nat>) returns (link: F.Session, ok: bool)
      requires id in directory && directory[id] < |clients| && let.Let?
      modifies this`clients, this`objects
      ensures fresh(link) && fresh(link.encryption) && Carried(link, NewChannel(hmac, let.key, let.addons, failure))
      ensures link.encryption.DecryptCursor() == StreamAt(hmac, DECRYPT_KEY, let.key, DROPPED)
      ensures clients == old(clients)[directory[id] := old(clients)[directory[id]].(account := Some(let.account))]
      ensures objects == old(objects) + [Entry(id, directory[id], link)] && (ok <==> failure.None? || failure.value >= 4)
    {
      var c := directory[id];
      clients := clients[c := clients[c].(account := Some(let.account))];
      link := new F.Session(hmac, let.key);
      objects := objects + [Entry(id, c, link)];
      ghost var greeting := F.Greeting(let.addons);
      F.GreetingWritable(let.addons, greeting);
      AfterGreetingCarries(Open(StreamAt(hmac, ENCRYPT_KEY, let.key, DROPPED)), greeting, failure);
      ok := link.Finalize(let.addons, failure, greeting);
    }

    /** The insertion of `create_session`, the rest of the first read, then the loop: everything the client sends is
        queued. */
    method PublishAndPipe(id: ClientId, session: nat, link: F.Session, first: seq<ClientPacket>, raws: seq<seq<byte>>)
      returns (r: Outcome<()>)
      requires link.encryption.Valid() && session < |objects| && objects[session].clientId == id
      requires forall raw :: raw in raws ==> |raw| <= 2048
      modifies this`sessions, this`queue, link.encryption
      ensures link.encryption.Valid() && link.encryption.EncryptCursor() == old(link.encryption.EncryptCursor())
      ensures sessions == old(sessions)[id := session]
      ensures queue == old(queue) + Tagged(id, session, first + PacketsIn(lib, old(link.encryption.DecryptCursor()), raws))
      ensures r.Panicked? <==> AbortsIn(lib, old(link.encryption.DecryptCursor()), raws)
    {
      TaggedAppend(queue, id, session, first, PacketsIn(lib, link.encryption.DecryptCursor(), raws));
      sessions := sessions[id := session];
      QueueAll(id, session, first);
      r := ReadAll(id, session, link, raws);
    }

    /** From passed checks to the end of the connection: the session is published only after all its greeting packets have
        been written. */
    method Enter(id: ClientId, let: Contact, failure: Option<nat>, raws: seq<seq<byte>>, ghost c: nat, ghost session: nat)
      returns (r: Outcome<bool>, link: F.Session)
      requires id in directory && directory[id] == c < |clients| && session == |objects|
      requires let.Let? && forall raw :: raw in raws ==> |raw| <= 2048
      modifies this`clients, this`objects, this`sessions, this`queue
      ensures fresh(link) && fresh(link.encryption) && Carried(link, NewChannel(hmac, let.key, let.addons, failure))
      ensures clients == old(clients)[c := old(clients)[c].(account := Some(let.account))]
      ensures objects == old(objects) + [Entry(id, c, link)]
      ensures if failure.None? || failure.value >= 4 then
                && sessions == old(sessions)[id := session]
                && queue == old(queue) + Tagged(id, session, AllPackets(lib, hmac, let, raws))
                && (r.Panicked? <==> AbortsIn(lib, StreamAt(hmac, DECRYPT_KEY, let.key, DROPPED), raws))
              else sessions == old(sessions) && queue == old(queue) && r.Returned?
    {
      var ok;
      link, ok := CreateSession(id, let, failure);
      if !ok {
        return Returned(false), link;
      }
      var done := PublishAndPipe(id, |objects| - 1, link, let.first, raws);
      r := if done.Panicked? then Panicked else Returned(true);
    }

    /** The first read and the checks on it. */
    method Meet(id: ClientId, accounts: Accounts, raws: seq<seq<byte>>) returns (c: Contact)
      requires id in directory && directory[id] < |clients| && clients[directory[id]].account.None?
      requires forall raw :: raw in raws ==> |raw| <= 2048
      ensures VisitOf(lib, sha, hmac, accounts, realmId, seed, raws)
              == match c
                 case Away => TurnedAway
                 case Panic => Crashed
                 case Let(account, key, addons, _) => Entered(account, key, addons, AllPackets(lib, hmac, c, Later(raws)),
                                                                AbortsIn(lib, StreamAt(hmac, DECRYPT_KEY, key, DROPPED), Later(raws)))
    {
      if raws == [] {
        return Away;
      }
      var packets := F.ReadPackets(lib, null, raws[0]);
      if !packets.Decoded? {
        return if packets.Abort? then Panic else Away;
      }
      if !packets.value[0].AuthSessionPacket? {
        return Away;
      }
      var session := packets.value[0].session;
      var verdict := HandleAuthSession(sha, accounts, session, realmId, clients[directory[id]].account.Some?, seed);
      c := if verdict.Err? then Away else Let(verdict.value.0, verdict.value.1, session.addons, packets.value[1..]);
    }

    /** `connect_loop`, from the bytes of the reads: what it comes to is what `VisitOf` says, and if the client enters,
        exactly the packets it sent are queued under its own session. */
    method ConnectLoop(id: ClientId, accounts: Accounts, failure: Option<nat>, raws: seq<seq<byte>>, ghost visit: Visit, ghost c: nat)
      returns (r: Outcome<bool>, link: F.Session?)
      requires id in directory && directory[id] == c < |clients| && clients[c] == Client(id, None)
      requires (forall raw :: raw in raws ==> |raw| <= 2048) && visit == VisitOf(lib, sha, hmac, accounts, realmId, seed, raws)
      modifies this`clients, this`objects, this`sessions, this`queue
      ensures clients == old(clients)[c := Client(id, AccountIn(visit))]
      ensures sessions == PublishedAfter(old(sessions), |old(objects)|, id, visit, failure)
      ensures queue == QueueAfter(old(queue), |old(objects)|, id, visit, failure) && (r.Panicked? <==> Panics(visit, failure))
      ensures if visit.Entered? then
                && link != null && fresh(link) && fresh(link.encryption)
                && Carried(link, NewChannel(hmac, visit.key, visit.addons, failure))
                && objects == old(objects) + [Entry(id, c, link)]
              else objects == old(objects)
    {
      var contact := Meet(id, accounts, raws);
      link := null;
      match contact
      case Away => r := Returned(false);
      case Panic => r := Panicked;
      case Let(_, _, _, _) => r, link := Enter(id, contact, failure, Later(raws), c, |objects|);
    }

    /** The insertion of the client, `connect_loop`, and the removal, which a panic prevents. */
    method Attend(id: ClientId, accounts: Accounts, failure: Option<nat>, raws: seq<seq<byte>>, ghost visit: Visit)
      returns (r: Outcome<bool>, link: F.Session?)
      requires directory == map[] && forall raw :: raw in raws ==> |raw| <= 2048
      requires visit == VisitOf(lib, sha, hmac, accounts, realmId, seed, raws)
      modifies this`clients, this`directory, this`objects, this`sessions, this`queue
      ensures clients == old(clients) + [Client(id, AccountIn(visit))]
      ensures directory == if r.Returned? then map[] else map[id := |old(clients)|]
      ensures sessions == PublishedAfter(old(sessions), |old(objects)|, id, visit, failure)
      ensures queue == QueueAfter(old(queue), |old(objects)|, id, visit, failure) && (r.Panicked? <==> Panics(visit, failure))
      ensures if visit.Entered? then
                && link != null && fresh(link) && fresh(link.encryption)
                && Carried(link, NewChannel(hmac, visit.key, visit.addons, failure))
                && objects == old(objects) + [Entry(id, |old(clients)|, link)]
              else objects == old(objects)
      ensures OneJoined(old(objects), objects)
    {
      ghost var before := clients;
      directory := map[id := |clients|];
      clients := clients + [Client(id, None)];
      r, link := ConnectLoop(id, accounts, failure, raws, visit, |before|);
      LastOne(before, Client(id, None), Client(id, AccountIn(visit)));
      if r.Returned? {
        OnlyOne(id, |before|);
        directory := directory - {id};
      }
    }

    /** The same, with the sessions in their place among the others. */
    method Host(id: ClientId, accounts: Accounts, failure: Option<nat>, raws: seq<seq<byte>>, ghost visit: Visit,
                ghost shadow: seq<WorldSessions.Session>)
      returns (r: Outcome<bool>)
      requires Linked(objects, shadow) && directory == map[] && forall raw :: raw in raws ==> |raw| <= 2048
      requires visit == VisitOf(lib, sha, hmac, accounts, realmId, seed, raws)
      modifies this`clients, this`directory, this`objects, this`sessions, this`queue
      ensures Linked(objects, ShadowAfter(shadow, |old(clients)|, id, hmac, visit, failure))
      ensures OneJoined(old(objects), objects)
      ensures clients == old(clients) + [Client(id, AccountIn(visit))]
      ensures directory == if r.Returned? then map[] else map[id := |old(clients)|]
      ensures sessions == PublishedAfter(old(sessions), |shadow|, id, visit, failure)
      ensures queue == QueueAfter(old(queue), |shadow|, id, visit, failure) && (r.Panicked? <==> Panics(visit, failure))
    {
      ghost var entries, c := objects, |clients|;
      var link;
      r, link := Attend(id, accounts, failure, raws, visit);
      assert Linked(entries, shadow);
      if visit.Entered? {
        FreshApart(entries, link);
        VisitorLinked(entries, shadow, id, c, hmac, visit, failure, link);
      }
    }

    /** One turn of `accept_clients`, from the bytes of a connection's reads: exactly the packets of a client that enters
        are queued under its own session, and nobody is listed afterwards. */
    method ServeConnection(id: ClientId, accounts: Accounts, failure: Option<nat>, raws: seq<seq<byte>>) returns (r: Outcome<bool>)
      requires Valid() && world.acceptor.Listening? && forall raw :: raw in raws ==> |raw| <= 2048
      modifies this
      ensures Valid() && OneJoined(old(objects), objects)
      ensures var visit := VisitOf(lib, sha, hmac, accounts, realmId, seed, raws);
              && (r.Panicked? <==>
                    visit.Crashed? || (visit.Entered? && visit.aborted && (failure.None? || failure.value >= 4)))
              && world == AfterConnection(old(world), id, hmac, visit, failure, r.Returned?)
    {
      ghost var visit := VisitOf(lib, sha, hmac, accounts, realmId, seed, raws);
      ConnectionReachable(world, id, hmac, visit, failure);
      r := Host(id, accounts, failure, raws, visit, world.objects);
      Settle(AfterConnection(world, id, hmac, visit, failure, r.Returned?));
    }

    // ---- the handling task ----

    /** `send_packet` on the connection of a session: no other connection moves. */
    method Send(s: nat, m: F.Message, fails: bool, ghost shadow: seq<WorldSessions.Session>) returns (alive: bool)
      requires Linked(objects, shadow) && s < |objects|
      modifies objects[s].link, objects[s].link.encryption
      ensures alive <==> F.Headed(m)
      ensures Linked(objects, if alive then Replied(shadow, s, Some(m), fails) else shadow)
    {
      assert Carried(objects[s].link, shadow[s].channel);
      var r := objects[s].link.WritePacket(m, fails);
      alive := r.Returned?;
    }

    /** `handle_packet` for the packet at the front of the queue, on the session found for it. */
    method Handle(packet: ClientPacket, s: nat, service: Service, ghost shadow: seq<WorldSessions.Session>) returns (alive: bool)
      requires Linked(objects, shadow) && s < |objects| && objects[s].client < |clients|
      modifies characters, objects[s].link, objects[s].link.encryption
      ensures var account, t := clients[objects[s].client].account, old(characters.characters);
              var reply := ReplyTo(account, t, packet, service.backend);
              && characters.characters == TableAfter(account, t, packet, service.backend)
              && (alive <==> Answerable(account, t, packet, service.backend)) && (alive <==> reply.Some? ==> F.Headed(reply.value))
              && Linked(objects, if alive then Replied(shadow, s, reply, service.fails) else shadow)
    {
      var account := clients[objects[s].client].account;
      ReplyHeaded(account, characters.characters, packet, service.backend);
      var reply := HandleRequest(characters, account, packet, service.backend);
      alive := true;
      if reply.Some? {
        alive := Send(s, reply.value, service.fails, shadow);
      }
    }

    /** The packet at the front is taken, looked up and handled. */
    method HandleFront(service: Service, ghost v: World) returns (alive: bool)
      requires Linked(objects, world.objects) && characters.characters == world.log.table
      requires clients == world.clients && sessions == world.published && queue == world.queue
      requires FrontLeads(world) && world.consumer.Waiting? && v == AfterPacket(world, service)
      modifies this`queue, characters, Links(objects)
      ensures Linked(objects, v.objects) && characters.characters == v.log.table && queue == v.queue
      ensures alive <==> v.consumer.Waiting?
    {
      var q := queue[0];
      queue := queue[1..];
      alive := true;
      if q.id in sessions {
        alive := Handle(q.packet, sessions[q.id], service, world.objects);
      }
      FrontAnswered(world, service, alive);
    }

    /** One turn of `handle_packets`. */
    method HandleNext(service: Service) returns (alive: bool)
      requires Valid() && world.consumer.Waiting? && queue != []
      modifies this`queue, this`world, characters, Links(objects)
      ensures Valid() && queue == old(queue)[1..]
      ensures world == Turn(old(world), service) && (alive <==> world.consumer.Waiting?)
    {
      ghost var v := Turn(world, service);
      PacketReachable(world, service);
      FrontKept(world, service, v);
      alive := HandleFront(service, v);
      Settle(v);
    }

    /** The record of where the server stands. */
    ghost method Settle(v: World)
      requires Linked(objects, v.objects) && Reachable(v) && characters.characters == v.log.table
      requires clients == v.clients && directory == v.directory && sessions == v.published && queue == v.queue
      modifies this`world
      ensures Valid() && world == v
    {
      world := v;
    }

    /** One turn of a run that is to end at `goal`. */
    method HandleTurn(services: nat -> Service, n: nat, ghost goal: World) returns (alive: bool)
      requires Valid() && world.consumer.Waiting? && queue != [] && goal == AfterRest(world, services, n, |queue|)
      modifies this`queue, this`world, characters, Links(objects)
      ensures Valid() && |queue| < |old(queue)| && (alive <==> world.consumer.Waiting?)
      ensures goal == if alive then AfterRest(world, services, n + 1, |queue|) else world
    {
      ghost var before, left := world, |queue|;
      alive := HandleNext(services(n));
      TurnTaken(before, services, n, left, world, goal);
    }

    /** The loop of `handle_packets`, for as long as there are packets. */
    method HandleAll(services: nat -> Service, ghost goal: World) returns (alive: bool)
      requires Valid() && world.consumer.Waiting? && goal == AfterRest(world, services, 0, |queue|)
      modifies this`queue, this`world, characters, Links(objects)
      ensures Valid() && world == goal && (alive <==> world.consumer.Waiting?)
    {
      var n := 0;
      alive := true;
      while alive && queue != []
        invariant Valid() && (alive <==> world.consumer.Waiting?)
        invariant goal == if alive then AfterRest(world, services, n, |queue|) else world
        decreases |queue|
      {
        alive := HandleTurn(services, n, goal);
        n := n + 1;
      }
    }

    /** `handle_packets`: it gets through everything queued if and only if no packet asks for a list that overflows its
        header, and then every one has been handled, in order. */
    method HandlePackets(services: nat -> Service) returns (alive: bool)
      requires Valid() && world.consumer.Waiting?
      modifies this`queue, this`world, characters, Links(objects)
      ensures Valid() && world == AfterFirst(old(world), services, |old(queue)|)
      ensures alive <==> AllAnswerable(old(characters.characters), QueuedJobs(old(world), services))
      ensures alive ==> queue == [] && world.log.handled == old(world).log.handled + old(queue)
    {
      ghost var goal := AfterFirst(world, services, |queue|);
      EverythingHandled(world, services, goal);
      FirstThenRest(world, services, |queue|, |queue|, goal);
      alive := HandleAll(services, goal);
    }
  }

  lemma FrontKept(w: World, service: Service, v: World)
    requires w.queue != [] && v == AfterPacket(w, service)
    ensures v.queue == w.queue[1..] && v.clients == w.clients && v.directory == w.directory && v.published == w.published
  {
  }

  /** What one turn does to the parts of the server, given whether the task survives it. */
  lemma FrontAnswered(w: World, service: Service, alive: bool)
    requires FrontLeads(w) && w.consumer.Waiting?
    requires alive <==> Answerable(FrontJob(w, service.backend).account, w.log.table, w.queue[0].packet, service.backend)
    ensures var v, s := AfterPacket(w, service), w.published[w.queue[0].id];
            var job := FrontJob(w, service.backend);
            var reply := ReplyTo(job.account, w.log.table, job.packet, job.backend);
            && v.queue == w.queue[1..] && v.clients == w.clients && v.directory == w.directory && v.published == w.published
            && v.log.table == TableAfter(job.account, w.log.table, job.packet, job.backend)
            && (alive <==> reply.Some? ==> F.Headed(reply.value)) && (alive <==> v.consumer.Waiting?)
            && v.objects == if alive then Replied(w.objects, s, reply, service.fails) else w.objects
  {
    var job := FrontJob(w, service.backend);
    ReplyHeaded(job.account, w.log.table, job.packet, job.backend);
  }

  lemma LastOne<T>(s: seq<T>, x: T, y: T)
    ensures (s + [x])[|s| := y] == s + [y]
  {
  }

  lemma OnlyOne<K, V>(k: K, v: V)
    ensures map[k := v] - {k} == map[]
  {
  }

  /** At most one session joined the others, on a connection that did not exist before. */
  twostate predicate OneJoined(before: seq<Entry>, new after: seq<Entry>) {
    after != before ==>
      && |after| == |before| + 1 && after[..|before|] == before
      && fresh(after[|before|].link) && fresh(after[|before|].link.encryption)
  }

  predicate Apart(objects: seq<Entry>, link: F.Session) {
    forall i :: 0 <= i < |objects| ==> objects[i].link != link && objects[i].link.encryption != link.encryption
  }

  twostate lemma FreshApart(objects: seq<Entry>, new link: F.Session)
    requires fresh(link) && fresh(link.encryption)
    ensures Apart(objects, link)
  {
  }

  lemma LinkedMore(objects: seq<Entry>, shadow: seq<WorldSessions.Session>, e: Entry, s: WorldSessions.Session)
    requires Linked(objects, shadow) && Carried(e.link, s.channel) && s.clientId == e.clientId && s.client == e.client
    requires Apart(objects, e.link)
    ensures Linked(objects + [e], shadow + [s])
  {
  }

  /** The new connection in its place among the others. */
  lemma VisitorLinked(objects: seq<Entry>, shadow: seq<WorldSessions.Session>, id: ClientId, client: nat, hmac: Hmac, visit: Visit,
                      failure: Option<nat>, link: F.Session)
    requires Linked(objects, shadow) && Apart(objects, link)
    requires visit.Entered? && Carried(link, NewChannel(hmac, visit.key, visit.addons, failure))
    ensures Linked(objects + [Entry(id, client, link)], ShadowAfter(shadow, client, id, hmac, visit, failure))
  {
    var s := WorldSessions.Session(id, client, visit.addons, NewChannel(hmac, visit.key, visit.addons, failure));
    LinkedMore(objects, shadow, Entry(id, client, link), s);
  }

  /** What the first read comes to: nothing, a panic, or a client to let in with the rest of that read. */
  datatype Contact = Away | Panic | Let(account: u32, key: Bytes40, addons: seq<Addon>, first: seq<ClientPacket>)

  function Later(raws: seq<seq<byte>>): (r: seq<seq<byte>>)
    ensures forall raw :: raw in r ==> raw in raws
  {
    if raws == [] then [] else raws[1..]
  }

  ghost function AllPackets(lib: Library, hmac: Hmac, c: Contact, raws: seq<seq<byte>>): seq<ClientPacket>
    requires c.Let?
  {
    c.first + PacketsIn(lib, StreamAt(hmac, DECRYPT_KEY, c.key, DROPPED), raws)
  }
}
