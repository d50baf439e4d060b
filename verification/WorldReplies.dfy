/** What every client is sent, in every interleaving of the world server's two tasks: its greeting, then the reply the
    handler computes for each packet handled on its session, in order, and nothing else. */
module WorldReplies {
  import opened Bytes
  import opened WorldPackets
  import opened WorldChannel
  import opened WorldHandler
  import opened WorldSessions
  import F = WorldFrames
  import Characters

  function Jobs(deeds: seq<Deed>): (jobs: seq<Job>)
    ensures |jobs| == |deeds|
  {
    seq(|deeds|, i requires 0 <= i < |deeds| => deeds[i].job)
  }

  function Packets(deeds: seq<Deed>): (qs: seq<Queued>)
    ensures |qs| == |deeds|
  {
    seq(|deeds|, i requires 0 <= i < |deeds| => deeds[i].q)
  }

  /** The replies session `i` has written: those to the packets handled on it, each as the handler computes it from the
      character table its predecessors left. */
  function RepliesBy(origin: Characters.Table, deeds: seq<Deed>, i: nat): seq<F.Message> {
    if deeds == [] then []
    else RepliesBy(origin, deeds[..|deeds| - 1], i) + LastBy(origin, deeds, i)
  }

  function LastBy(origin: Characters.Table, deeds: seq<Deed>, i: nat): seq<F.Message>
    requires deeds != []
  {
    var last, reply := deeds[|deeds| - 1], LastReply(origin, Jobs(deeds));
    if last.session == i && last.written && reply.Some? then [reply.value] else []
  }

  // ---- the record ----

  /** The deed was done on this session, for its client's account. */
  ghost predicate DoneOn(clients: seq<Client>, objects: seq<WorldSessions.Session>, d: Deed) {
    && d.session < |objects| && objects[d.session].client < |clients|
    && clients[objects[d.session].client].account == d.job.account && d.job.account.Some? && d.job.packet == d.q.packet
  }

  function AtHand(c: Consumer): seq<Queued> {
    if c.Handling? && c.answered then [c.q] else []
  }

  /** The last deed is the one at hand. */
  ghost predicate Current(origin: Characters.Table, deeds: seq<Deed>, c: Consumer) {
    && (c.Handling? && c.held.Some? ==> c.answered)
    && (c.Handling? && c.answered ==>
          deeds != [] && deeds[|deeds| - 1].session == c.session
          && (c.held.Some? ==> !deeds[|deeds| - 1].written && LastReply(origin, Jobs(deeds)) == Some(c.held.value.message)))
  }

  /** The table is what the deeds made of it, and the deeds are the packets handled, in order. */
  ghost predicate Recorded(w: World) {
    && w.log.table == TableThrough(w.log.origin, Jobs(w.log.deeds))
    && Packets(w.log.deeds) == w.log.handled + AtHand(w.consumer)
    && Current(w.log.origin, w.log.deeds, w.consumer)
    && forall k :: 0 <= k < |w.log.deeds| ==> DoneOn(w.clients, w.objects, w.log.deeds[k])
  }

  lemma JobsAppend(deeds: seq<Deed>, d: Deed)
    ensures Jobs(deeds + [d]) == Jobs(deeds) + [d.job] && Packets(deeds + [d]) == Packets(deeds) + [d.q]
  {
  }

  lemma JobsWritten(deeds: seq<Deed>)
    requires deeds != []
    ensures Jobs(LastWritten(deeds)) == Jobs(deeds) && Packets(LastWritten(deeds)) == Packets(deeds)
  {
    assert forall i :: 0 <= i < |deeds| ==> Jobs(LastWritten(deeds))[i] == Jobs(deeds)[i];
  }

  lemma JobsConcat(x: seq<Deed>, y: seq<Deed>)
    ensures Jobs(x + y) == Jobs(x) + Jobs(y)
  {
  }

  lemma JobsPrefix(x: seq<Deed>, n: nat)
    requires n <= |x|
    ensures Jobs(x[..n]) == Jobs(x)[..n]
  {
  }

  lemma TwoParts<T>(whole: seq<T>, a: seq<T>, b: seq<T>)
    requires whole == a + b
    ensures whole[..|a|] == a && whole[|a|..] == b
  {
  }

  lemma DeedsKept(clients: seq<Client>, objects: seq<WorldSessions.Session>, deeds: seq<Deed>, moreClients: seq<Client>,
                  moreObjects: seq<WorldSessions.Session>)
    requires Grew(clients, objects, moreClients, moreObjects)
    requires forall k :: 0 <= k < |deeds| ==> DoneOn(clients, objects, deeds[k])
    ensures forall k :: 0 <= k < |deeds| ==> DoneOn(moreClients, moreObjects, deeds[k])
  {
    forall k | 0 <= k < |deeds|
      ensures DoneOn(moreClients, moreObjects, deeds[k])
    {
      assert DoneOn(clients, objects, deeds[k]);
    }
  }

  lemma AcceptorKeepsRecord(w: World, e: WorldSessions.Event)
    requires Recorded(w) && AcceptorEnabled(w, e)
    ensures Recorded(AcceptorStep(w, e))
  {
    var v := AcceptorStep(w, e);
    AcceptorGrows(w, e, v);
    DeedsKept(w.clients, w.objects, w.log.deeds, v.clients, v.objects);
  }

  /** The new deed is the one at hand, and its reply the one held. */
  lemma DeedCurrent(origin: Characters.Table, deeds: seq<Deed>, d: Deed, more: seq<Deed>, c: Consumer)
    requires more == deeds + [d] && c.Handling? && c.answered && d.session == c.session && !d.written
    requires var reply := ReplyTo(d.job.account, TableThrough(origin, Jobs(deeds)), d.job.packet, d.job.backend);
             c.held.Some? ==> reply == Some(c.held.value.message)
    ensures Current(origin, more, c)
    ensures TableThrough(origin, Jobs(more))
            == TableAfter(d.job.account, TableThrough(origin, Jobs(deeds)), d.job.packet, d.job.backend)
  {
    JobsAppend(deeds, d);
    assert Jobs(more)[..|deeds|] == Jobs(deeds);
  }

  /** The deed at hand is one for its session's own account. */
  lemma DeedDone(w: World, backend: Backend, v: World, d: Deed)
    requires ObjectsInv(w.clients, w.objects, w.published) && ConsumerEnabled(w, Answer(backend))
    requires v.clients == w.clients && Grew(w.clients, w.objects, v.clients, v.objects)
    requires d.q == w.consumer.q && d.session == w.consumer.session
    requires d.job == Job(AccountOf(w, w.consumer.session), w.consumer.q.packet, backend)
    ensures DoneOn(v.clients, v.objects, d)
  {
    assert Owned(w.clients, w.objects[w.consumer.session]);
  }

  lemma OneMoreDone(clients: seq<Client>, objects: seq<WorldSessions.Session>, deeds: seq<Deed>, d: Deed)
    requires (forall k :: 0 <= k < |deeds| ==> DoneOn(clients, objects, deeds[k])) && DoneOn(clients, objects, d)
    ensures forall k :: 0 <= k < |deeds + [d]| ==> DoneOn(clients, objects, (deeds + [d])[k])
  {
  }

  lemma AnswerKeepsRecord(w: World, backend: Backend)
    requires ObjectsInv(w.clients, w.objects, w.published) && Recorded(w) && ConsumerEnabled(w, Answer(backend))
    ensures Recorded(ConsumerStep(w, Answer(backend)))
  {
    var c, v := w.consumer, ConsumerStep(w, Answer(backend));
    var d := Deed(c.q, c.session, Job(AccountOf(w, c.session), c.q.packet, backend), false);
    ConsumerGrows(w, Answer(backend), v);
    DeedsKept(w.clients, w.objects, w.log.deeds, v.clients, v.objects);
    DeedDone(w, backend, v, d);
    OneMoreDone(v.clients, v.objects, w.log.deeds, d);
    DeedCurrent(w.log.origin, w.log.deeds, d, v.log.deeds, v.consumer);
    JobsAppend(w.log.deeds, d);
  }

  lemma WrittenDone(clients: seq<Client>, objects: seq<WorldSessions.Session>, deeds: seq<Deed>)
    requires deeds != [] && forall k :: 0 <= k < |deeds| ==> DoneOn(clients, objects, deeds[k])
    ensures forall k :: 0 <= k < |deeds| ==> DoneOn(clients, objects, LastWritten(deeds)[k])
  {
    forall k | 0 <= k < |deeds|
      ensures DoneOn(clients, objects, LastWritten(deeds)[k])
    {
      assert DoneOn(clients, objects, deeds[k]);
    }
  }

  lemma WriteKeepsRecord(w: World)
    requires Recorded(w) && ConsumerEnabled(w, WriteReply)
    ensures Recorded(ConsumerStep(w, WriteReply))
  {
    var v := ConsumerStep(w, WriteReply);
    ConsumerGrows(w, WriteReply, v);
    DeedsKept(w.clients, w.objects, w.log.deeds, v.clients, v.objects);
    JobsWritten(w.log.deeds);
    WrittenDone(v.clients, v.objects, w.log.deeds);
  }

  lemma ConsumerKeepsRecord(w: World, e: WorldSessions.Event)
    requires Recorded(w) && ConsumerEnabled(w, e) && !e.Answer? && !e.WriteReply?
    ensures Recorded(ConsumerStep(w, e))
  {
    var v := ConsumerStep(w, e);
    ConsumerGrows(w, e, v);
    assert v.log.deeds == w.log.deeds && v.log.table == w.log.table;
    assert v.log.handled + AtHand(v.consumer) == w.log.handled + AtHand(w.consumer);
    DeedsKept(w.clients, w.objects, w.log.deeds, v.clients, v.objects);
  }

  lemma UnwrittenDeed(origin: Characters.Table, deeds: seq<Deed>, d: Deed, i: nat)
    requires !d.written
    ensures RepliesBy(origin, deeds + [d], i) == RepliesBy(origin, deeds, i)
  {
    assert (deeds + [d])[..|deeds|] == deeds;
  }

  lemma DeedWritten(origin: Characters.Table, deeds: seq<Deed>, i: nat)
    requires deeds != [] && !deeds[|deeds| - 1].written
    ensures RepliesBy(origin, LastWritten(deeds), i) == RepliesBy(origin, deeds, i) + LastBy(origin, LastWritten(deeds), i)
  {
    assert LastWritten(deeds)[..|deeds| - 1] == deeds[..|deeds| - 1];
    assert LastBy(origin, deeds, i) == [];
  }

  lemma {:induction false} NoDeeds(origin: Characters.Table, deeds: seq<Deed>, i: nat)
    requires forall k :: 0 <= k < |deeds| ==> deeds[k].session != i
    ensures RepliesBy(origin, deeds, i) == []
  {
    if deeds != [] {
      NoDeeds(origin, deeds[..|deeds| - 1], i);
    }
  }

  // ---- what the clients are told ----

  function Front(greeting: seq<F.Message>, n: nat): seq<F.Message>
    requires |greeting| == 4
  {
    greeting[..if n < 4 then n else 4]
  }

  /** A greeting, or the beginning of one, and behind it these replies. */
  ghost predicate Speech(sent: seq<F.Message>, addons: seq<Addon>, replies: seq<F.Message>) {
    sent == Front(F.Greeting(addons), |sent|) + replies
  }

  ghost predicate Told(w: World, i: nat)
    requires i < |w.objects|
  {
    Speech(w.objects[i].channel.sent, w.objects[i].addons, RepliesBy(w.log.origin, w.log.deeds, i))
  }

  ghost predicate AllTold(w: World) {
    forall i :: 0 <= i < |w.objects| ==> Told(w, i)
  }

  /** All four packets of the greeting are out. */
  ghost predicate FullyGreeted(objects: seq<WorldSessions.Session>, i: nat) {
    i < |objects| && |objects[i].channel.sent| >= 4
  }

  ghost predicate GreetedFirst(w: World) {
    && (forall id :: id in w.published ==> FullyGreeted(w.objects, w.published[id]))
    && (w.consumer.Handling? ==> FullyGreeted(w.objects, w.consumer.session))
    && (forall k :: 0 <= k < |w.log.deeds| ==> FullyGreeted(w.objects, w.log.deeds[k].session))
  }

  /** Where a greeting stands: this much is out, at most one packet is held, the rest is still to do. */
  ghost predicate GreetingAt(addons: seq<Addon>, sent: seq<F.Message>, held: Option<Outgoing>, todo: seq<F.Message>) {
    var greeting, n := F.Greeting(addons), |sent| + if held.Some? then 1 else 0;
    && n + |todo| == 4 && todo == greeting[n..] && (held.Some? ==> held.value.message == greeting[|sent|])
  }

  ghost predicate Underway(w: World) {
    var a := w.acceptor;
    a.Greeting? ==>
      && a.session < |w.objects| && GreetingAt(w.objects[a.session].addons, w.objects[a.session].channel.sent, a.held, a.todo)
      && forall k :: 0 <= k < |w.log.deeds| ==> w.log.deeds[k].session != a.session
  }

  ghost predicate RepliesInv(w: World) {
    Recorded(w) && GreetedFirst(w) && Underway(w) && AllTold(w)
  }

  lemma SpeechGrows(sent: seq<F.Message>, addons: seq<Addon>, replies: seq<F.Message>, m: F.Message)
    requires |sent| >= 4 && Speech(sent, addons, replies)
    ensures Speech(sent + [m], addons, replies + [m])
  {
    Regroup(F.Greeting(addons), replies, [m]);
    assert F.Greeting(addons)[..4] == F.Greeting(addons);
  }

  lemma GreetingGrows(sent: seq<F.Message>, addons: seq<Addon>, m: F.Message)
    requires |sent| < 4 && Speech(sent, addons, []) && m == F.Greeting(addons)[|sent|]
    ensures Speech(sent + [m], addons, [])
  {
  }

  /** A step that leaves the deeds alone, and this session's wire. */
  lemma ToldKept(w: World, v: World, i: nat)
    requires i < |w.objects| && i < |v.objects| && Told(w, i)
    requires v.log.deeds == w.log.deeds && v.log.origin == w.log.origin
    requires v.objects[i].channel.sent == w.objects[i].channel.sent && v.objects[i].addons == w.objects[i].addons
    ensures Told(v, i)
  {
  }

  lemma StaysGreeted(clients: seq<Client>, objects: seq<WorldSessions.Session>, moreClients: seq<Client>,
                     moreObjects: seq<WorldSessions.Session>)
    requires Grew(clients, objects, moreClients, moreObjects)
    ensures forall i: nat :: FullyGreeted(objects, i) ==> FullyGreeted(moreObjects, i)
  {
  }

  /** A session is published only when it has been greeted. */
  lemma AcceptorKeepsGreeted(w: World, e: WorldSessions.Event)
    requires GreetedFirst(w) && Underway(w) && AcceptorEnabled(w, e)
    ensures GreetedFirst(AcceptorStep(w, e))
  {
    var v := AcceptorStep(w, e);
    AcceptorGrows(w, e, v);
    StaysGreeted(w.clients, w.objects, v.clients, v.objects);
    if e.Publish? {
      assert FullyGreeted(w.objects, w.acceptor.session);
    } else {
      assert v.published == w.published;
    }
  }

  lemma ConsumerKeepsGreeted(w: World, e: WorldSessions.Event)
    requires GreetedFirst(w) && ConsumerEnabled(w, e)
    ensures GreetedFirst(ConsumerStep(w, e))
  {
    var v := ConsumerStep(w, e);
    ConsumerGrows(w, e, v);
    StaysGreeted(w.clients, w.objects, v.clients, v.objects);
    DeedSessions(w, e, v);
    forall k | 0 <= k < |v.log.deeds|
      ensures FullyGreeted(v.objects, v.log.deeds[k].session)
    {
    }
  }

  /** The handling task stays away from the session being greeted. */
  lemma ConsumerKeepsUnderway(w: World, e: WorldSessions.Event)
    requires (w.acceptor.Greeting? ==> Private(w, w.acceptor.session)) && Underway(w) && ConsumerEnabled(w, e)
    ensures Underway(ConsumerStep(w, e))
  {
    var v := ConsumerStep(w, e);
    if w.acceptor.Greeting? {
      ConsumerGrows(w, e, v);
      DeedSessions(w, e, v);
      assert v.objects[w.acceptor.session] == w.objects[w.acceptor.session];
    }
  }

  lemma GreetingKeepsUnderway(w: World, e: WorldSessions.Event)
    requires Underway(w) && AcceptorEnabled(w, e) && (e.EncryptGreeting? || e.WriteGreeting?)
    ensures Underway(AcceptorStep(w, e))
  {
  }

  lemma AcceptorKeepsUnderway(w: World, e: WorldSessions.Event)
    requires Recorded(w) && Underway(w) && AcceptorEnabled(w, e)
    ensures Underway(AcceptorStep(w, e))
  {
    var v := AcceptorStep(w, e);
    if e.Authenticate? {
      assert v.log.deeds == w.log.deeds && (v.acceptor.Greeting? ==> v.acceptor.session == |w.objects|);
      assert forall k :: 0 <= k < |w.log.deeds| ==> DoneOn(w.clients, w.objects, w.log.deeds[k]);
    } else if e.EncryptGreeting? || e.WriteGreeting? {
      GreetingKeepsUnderway(w, e);
    } else {
      assert !v.acceptor.Greeting?;
    }
  }

  /** Steps that neither write nor record anything. */
  lemma QuietStepTold(w: World, e: WorldSessions.Event)
    requires AllTold(w) && Enabled(w, e)
    requires !e.Authenticate? && !e.WriteGreeting? && !e.Answer? && !e.WriteReply?
    ensures AllTold(Step(w, e))
  {
    var v := Step(w, e);
    assert |v.objects| == |w.objects| && v.log.deeds == w.log.deeds && v.log.origin == w.log.origin;
    forall i | 0 <= i < |w.objects|
      ensures Told(v, i)
    {
      assert Told(w, i);
      ToldKept(w, v, i);
    }
  }

  lemma AuthenticateTold(w: World, e: WorldSessions.Event)
    requires Recorded(w) && AllTold(w) && AcceptorEnabled(w, e) && e.Authenticate?
    ensures AllTold(AcceptorStep(w, e))
  {
    var v := AcceptorStep(w, e);
    NoneDoneBeyond(w);
    assert v.log.deeds == w.log.deeds && v.log.origin == w.log.origin;
    forall i | 0 <= i < |v.objects|
      ensures Told(v, i)
    {
      if i < |w.objects| {
        assert Told(w, i) && v.objects[i] == w.objects[i];
        ToldKept(w, v, i);
      } else {
        assert i == |w.objects| && v.objects[i].channel.sent == [];
        NothingTold(v.objects[i].addons);
      }
    }
  }

  lemma NoneDoneBeyond(w: World)
    requires Recorded(w)
    ensures RepliesBy(w.log.origin, w.log.deeds, |w.objects|) == []
  {
    forall k | 0 <= k < |w.log.deeds|
      ensures w.log.deeds[k].session != |w.objects|
    {
      assert DoneOn(w.clients, w.objects, w.log.deeds[k]);
    }
    NoDeeds(w.log.origin, w.log.deeds, |w.objects|);
  }

  lemma NothingTold(addons: seq<Addon>)
    ensures Speech([], addons, [])
  {
  }

  lemma WriteGreetingTold(w: World)
    requires Underway(w) && AllTold(w) && AcceptorEnabled(w, WriteGreeting)
    ensures AllTold(AcceptorStep(w, WriteGreeting))
  {
    var a, v := w.acceptor, AcceptorStep(w, WriteGreeting);
    NoDeeds(w.log.origin, w.log.deeds, a.session);
    forall i | 0 <= i < |v.objects|
      ensures Told(v, i)
    {
      assert Told(w, i);
      if i == a.session {
        GreetingGrows(w.objects[i].channel.sent, w.objects[i].addons, a.held.value.message);
      } else {
        ToldKept(w, v, i);
      }
    }
  }

  lemma AnswerTold(w: World, backend: Backend)
    requires AllTold(w) && ConsumerEnabled(w, Answer(backend))
    ensures AllTold(ConsumerStep(w, Answer(backend)))
  {
    var c, v := w.consumer, ConsumerStep(w, Answer(backend));
    var d := Deed(c.q, c.session, Job(AccountOf(w, c.session), c.q.packet, backend), false);
    assert v.log.deeds == w.log.deeds + [d] && v.log.origin == w.log.origin && |v.objects| == |w.objects|;
    assert forall i :: 0 <= i < |w.objects| ==>
             v.objects[i].channel.sent == w.objects[i].channel.sent && v.objects[i].addons == w.objects[i].addons;
    forall i | 0 <= i < |v.objects|
      ensures Told(v, i)
    {
      assert Told(w, i);
      UnwrittenDeed(w.log.origin, w.log.deeds, d, i);
    }
  }

  /** The session whose reply was written; any other has nothing new. */
  lemma ReplyTold(w: World, v: World, i: nat)
    requires Recorded(w) && GreetedFirst(w) && ConsumerEnabled(w, WriteReply) && v == ConsumerStep(w, WriteReply)
    requires i < |w.objects| && Told(w, i)
    ensures Told(v, i)
  {
    var c := w.consumer;
    DeedWritten(w.log.origin, w.log.deeds, i);
    JobsWritten(w.log.deeds);
    if i == c.session {
      SpeechGrows(w.objects[i].channel.sent, w.objects[i].addons, RepliesBy(w.log.origin, w.log.deeds, i), c.held.value.message);
    } else {
      assert RepliesBy(w.log.origin, v.log.deeds, i) == RepliesBy(w.log.origin, w.log.deeds, i);
    }
  }

  lemma WriteReplyTold(w: World)
    requires Recorded(w) && GreetedFirst(w) && AllTold(w) && ConsumerEnabled(w, WriteReply)
    ensures AllTold(ConsumerStep(w, WriteReply))
  {
    var v := ConsumerStep(w, WriteReply);
    forall i | 0 <= i < |v.objects|
      ensures Told(v, i)
    {
      assert Told(w, i);
      ReplyTold(w, v, i);
    }
  }

  lemma AcceptorKeepsTold(w: World, e: WorldSessions.Event)
    requires RepliesInv(w) && AcceptorEnabled(w, e)
    ensures AllTold(AcceptorStep(w, e))
  {
    match e
    case Authenticate(_, _) => AuthenticateTold(w, e);
    case WriteGreeting => WriteGreetingTold(w);
    case _ => QuietStepTold(w, e);
  }

  lemma ConsumerKeepsTold(w: World, e: WorldSessions.Event)
    requires RepliesInv(w) && ConsumerEnabled(w, e)
    ensures AllTold(ConsumerStep(w, e))
  {
    match e
    case Answer(backend) => AnswerTold(w, backend);
    case WriteReply => WriteReplyTold(w);
    case _ => QuietStepTold(w, e);
  }

  lemma HandlingKeepsRecord(w: World, e: WorldSessions.Event)
    requires ObjectsInv(w.clients, w.objects, w.published) && Recorded(w) && ConsumerEnabled(w, e)
    ensures Recorded(ConsumerStep(w, e))
  {
    match e
    case Answer(backend) => AnswerKeepsRecord(w, backend);
    case WriteReply => WriteKeepsRecord(w);
    case _ => ConsumerKeepsRecord(w, e);
  }

  lemma AcceptorKeepsReplies(w: World, e: WorldSessions.Event)
    requires RepliesInv(w) && AcceptorEnabled(w, e)
    ensures RepliesInv(AcceptorStep(w, e))
  {
    AcceptorKeepsTold(w, e);
    AcceptorKeepsRecord(w, e);
    AcceptorKeepsGreeted(w, e);
    AcceptorKeepsUnderway(w, e);
  }

  lemma ConsumerKeepsReplies(w: World, e: WorldSessions.Event)
    requires ObjectsInv(w.clients, w.objects, w.published) && (w.acceptor.Greeting? ==> Private(w, w.acceptor.session))
    requires RepliesInv(w) && ConsumerEnabled(w, e)
    ensures RepliesInv(ConsumerStep(w, e))
  {
    ConsumerKeepsTold(w, e);
    HandlingKeepsRecord(w, e);
    ConsumerKeepsGreeted(w, e);
    ConsumerKeepsUnderway(w, e);
  }

  lemma StepKeepsReplies(w: World, e: WorldSessions.Event)
    requires Inv(w) && RepliesInv(w) && Enabled(w, e)
    ensures RepliesInv(Step(w, e))
  {
    if AcceptorEnabled(w, e) {
      AcceptorKeepsReplies(w, e);
    } else {
      ConsumerKeepsReplies(w, e);
    }
  }

  lemma {:induction false} RunKeepsReplies(w: World, events: seq<WorldSessions.Event>, after: World)
    requires Inv(w) && RepliesInv(w) && Reaches(w, events, after)
    ensures RepliesInv(after)
    decreases |events|
  {
    if events != [] {
      StepKeepsInv(w, events[0]);
      StepKeepsReplies(w, events[0]);
      RunKeepsReplies(Step(w, events[0]), events[1..], after);
    }
  }

  /** In every interleaving: the character table is what the packets handled made of it, those packets are the ones taken
      off the queue, in order, each on a session of an account it was handled for; and every session has been sent its
      greeting, or the beginning of one, and then exactly the replies it wrote to the packets handled on it. */
  lemma EveryReply(events: seq<WorldSessions.Event>, w: World)
    requires Reaches(Boot(w.log.origin), events, w)
    ensures Recorded(w) && AllTold(w) && GreetedFirst(w)
  {
    RunKeepsReplies(Boot(w.log.origin), events, w);
  }

  /** The replies to the packets session `i` itself queued. */
  function OwnReplies(origin: Characters.Table, deeds: seq<Deed>, i: nat): seq<F.Message> {
    if deeds == [] then []
    else
      var last, reply := deeds[|deeds| - 1], LastReply(origin, Jobs(deeds));
      OwnReplies(origin, deeds[..|deeds| - 1], i) + if last.q.from == i && last.written && reply.Some? then [reply.value] else []
  }

  lemma {:induction false} OwnAreBy(origin: Characters.Table, deeds: seq<Deed>, i: nat)
    requires forall k :: 0 <= k < |deeds| ==> deeds[k].session == deeds[k].q.from
    ensures OwnReplies(origin, deeds, i) == RepliesBy(origin, deeds, i)
  {
    if deeds != [] {
      OwnAreBy(origin, deeds[..|deeds| - 1], i);
    }
  }

  lemma OwnOnRecord(events: seq<WorldSessions.Event>, w: World)
    requires Reaches(Boot(w.log.origin), events, w) && (NeverDisplaced(Boot(w.log.origin), events) || DistinctIds(w.clients))
    ensures forall k :: 0 <= k < |w.log.deeds| ==> w.log.deeds[k].session == w.log.deeds[k].q.from
  {
    OwnSessionAnswers(events, w);
    OwnershipExact(Boot(w.log.origin), events, w);
  }

  /** In every interleaving that never publishes under an id with packets waiting, and so in every one that draws each client
      id once, what a client has been sent is its greeting, or the beginning of one, and then the replies to its own
      packets; and it reads exactly that if and only if the bodies fit and, where writes failed, the keystream still
      matches at every header. */
  lemma ClientIsAnswered(events: seq<WorldSessions.Event>, w: World, i: nat)
    requires Reaches(Boot(w.log.origin), events, w) && i < |w.objects|
    requires NeverDisplaced(Boot(w.log.origin), events) || DistinctIds(w.clients)
    ensures var ch, own := w.objects[i].channel, OwnReplies(w.log.origin, w.log.deeds, i);
            && Speech(ch.sent, w.objects[i].addons, own)
            && (F.ClientReads(ch.start, ch.wire) == Some(ch.sent)
                <==> F.AllFit(ch.sent) && Aligned(ch.start.keystream, ch.start.at, ch.marks))
            && (!ch.failed ==> (F.ClientReads(ch.start, ch.wire) == Some(ch.sent) <==> F.AllFit(ch.sent)))
  {
    EveryReply(events, w);
    assert Told(w, i);
    OwnOnRecord(events, w);
    OwnAreBy(w.log.origin, w.log.deeds, i);
    WireOrder(events, w, i);
  }

  /** From some deed on, every reply there was has been written. */
  ghost predicate AllDelivered(origin: Characters.Table, deeds: seq<Deed>, from: nat) {
    |deeds| <= from
    || ((deeds[|deeds| - 1].written || LastReply(origin, Jobs(deeds)).None?) && AllDelivered(origin, deeds[..|deeds| - 1], from))
  }

  lemma {:induction false} LaterDelivered(origin: Characters.Table, deeds: seq<Deed>, from: nat, later: nat)
    requires from <= later && AllDelivered(origin, deeds, from)
    ensures AllDelivered(origin, deeds, later)
  {
    if |deeds| > later {
      LaterDelivered(origin, deeds[..|deeds| - 1], from, later);
    }
  }

  /** A deed whose reply, if any, was written, done on the table its predecessors left. */
  lemma DeliveredNext(origin: Characters.Table, deeds: seq<Deed>, d: Deed, from: nat)
    requires AllDelivered(origin, deeds, from)
    requires ReplyTo(d.job.account, TableThrough(origin, Jobs(deeds)), d.job.packet, d.job.backend).Some? ==> d.written
    ensures AllDelivered(origin, deeds + [d], from)
  {
    JobsAppend(deeds, d);
    assert (deeds + [d])[..|deeds|] == deeds && Jobs(deeds + [d])[..|deeds|] == Jobs(deeds);
  }

  /** If from some deed on all are done on session `i`, none of whose replies is lost, and none was before, what it replies
      are the handler's answers to those jobs alone. */
  lemma {:induction false} RepliesAreAnswers(origin: Characters.Table, deeds: seq<Deed>, from: nat, i: nat)
    requires from <= |deeds| && forall k :: 0 <= k < |deeds| ==> (deeds[k].session == i <==> k >= from)
    requires AllDelivered(origin, deeds, from)
    ensures RepliesBy(origin, deeds, i) == Answers(TableThrough(origin, Jobs(deeds[..from])), Jobs(deeds)[from..])
    decreases |deeds|
  {
    if from == |deeds| {
      NoDeeds(origin, deeds, i);
    } else {
      var last := |deeds| - 1;
      RepliesAreAnswers(origin, deeds[..last], from, i);
      assert deeds[..last][..from] == deeds[..from];
      LastAnswer(origin, deeds, from);
    }
  }

  /** The answer to the last job, seen from the table some deeds left. */
  lemma LastAnswer(origin: Characters.Table, deeds: seq<Deed>, from: nat)
    requires from < |deeds|
    ensures var jobs, t := Jobs(deeds)[from..], TableThrough(origin, Jobs(deeds[..from]));
            && LastReply(origin, Jobs(deeds)) == LastReply(t, jobs)
            && jobs[..|jobs| - 1] == Jobs(deeds[..|deeds| - 1])[from..]
  {
    JobsPrefix(deeds, from);
    JobsPrefix(deeds, |deeds| - 1);
    LastSplit(origin, Jobs(deeds), from);
  }

  lemma LastSplit(origin: Characters.Table, jobs: seq<Job>, from: nat)
    requires from < |jobs|
    ensures LastReply(origin, jobs) == LastReply(TableThrough(origin, jobs[..from]), jobs[from..])
    ensures jobs[from..][..|jobs| - 1 - from] == jobs[..|jobs| - 1][from..]
  {
    var last := |jobs| - 1;
    TableSplit(origin, jobs[..from], jobs[from..last]);
    assert jobs[..from] + jobs[from..last] == jobs[..last] && jobs[from..][..last - from] == jobs[from..last];
  }
}
