/** What every conversation with the auth server obeys, for any client input and any behaviour of the services. */
module AuthConversation {
  import opened Bytes
  import opened Srp
  import opened AuthPackets
  import opened AuthLanguage
  import opened AuthServer

  // ---- each turn is justified by the one before it ----

  /** The services agreed to what this turn did. */
  predicate Justified(svc: Services, h: Handled) {
    match h.message
    case Connect(_) => h.after.ConnectChallenge? && svc.initiateLogin(h.turn, h.identifier) == Returned(Ok(h.after.token))
    case ReConnect(_) => h.after.ReconnectChallenge? && svc.initiateRelogin(h.turn, h.identifier) == Ok(h.after.retoken)
    case Proof(proof) =>
      h.before.ConnectChallenge? && h.after.Realmlist? && ProofAccepted(svc, h.before.token, proof)
    case ReProof(proof) =>
      h.before.ReconnectChallenge? && h.after.Realmlist? && svc.reconnects(h.before.retoken, proof.proofData, proof.clientProof)
    case RealmList(_) => h.before.Realmlist? && h.after.Realmlist?
  }

  /** The token's verdict on a login proof was favourable. */
  predicate ProofAccepted(svc: Services, token: Server, proof: ConnectProof) {
    var verdict := svc.verdict(token, proof.userPublicKey, proof.userProof);
    verdict.Returned? && verdict.value.Ok?
  }

  /** Turn numbers, states and services line up from one turn to the next. */
  predicate Chained(svc: Services, turn: nat, state: State, handled: seq<Handled>)
    decreases |handled|
  {
    handled == [] ||
    (&& handled[0].turn == turn
     && handled[0].before == state
     && Justified(svc, handled[0])
     && Chained(svc, turn + 1, handled[0].after, handled[1..]))
  }

  lemma TurnJustified(svc: Services, turn: nat, state: State, message: Message, rest: seq<byte>)
    requires Handle(svc, turn, state, message, rest).Next?
    ensures var r := Handle(svc, turn, state, message, rest);
            Justified(svc, Handled(turn, message, IdentifierIn(message, rest), state, r.state, r.reply))
  {
  }

  lemma {:induction false} ServeChained(svc: Services, turn: nat, state: State, input: seq<byte>)
    ensures Chained(svc, turn, state, Serve(svc, turn, state, input).handled)
    decreases |input|
  {
    var next := NextMessage(input);
    if next.Some? {
      var (message, rest) := next.value;
      var r := Handle(svc, turn, state, message, rest);
      if r.Next? {
        TurnJustified(svc, turn, state, message, rest);
        ServeChained(svc, turn + 1, r.state, r.rest);
      }
    }
  }

  lemma {:induction false} ChainedAt(svc: Services, turn: nat, state: State, handled: seq<Handled>, i: nat)
    requires Chained(svc, turn, state, handled) && i < |handled|
    ensures handled[i].turn == turn + i && Justified(svc, handled[i])
    ensures handled[i].before == if i == 0 then state else handled[i - 1].after
    decreases i
  {
    if i > 0 {
      ChainedAt(svc, turn + 1, handled[0].after, handled[1..], i - 1);
    }
  }

  /** A run of realm-list requests goes back to an accepted proof. */
  lemma {:induction false} BackToProof(svc: Services, handled: seq<Handled>, i: nat) returns (j: nat)
    requires Chained(svc, 0, Start, handled) && i < |handled| && handled[i].after.Realmlist?
    ensures j <= i && (handled[j].message.Proof? || handled[j].message.ReProof?)
    ensures forall k :: j < k <= i ==> handled[k].message.RealmList?
  {
    ChainedAt(svc, 0, Start, handled, i);
    if handled[i].message.RealmList? {
      j := BackToProof(svc, handled, i - 1);
    } else {
      j := i;
    }
  }

  /** A proof that was accepted on turn `j` was checked against the token issued on turn `j - 1`. */
  predicate AnswersLastChallenge(svc: Services, handled: seq<Handled>, j: nat)
    requires 0 < j < |handled|
  {
    var asked := handled[j - 1];
    match handled[j].message
    case Proof(proof) =>
      && asked.message.Connect? && asked.after.ConnectChallenge?
      && svc.initiateLogin(j - 1, asked.identifier) == Returned(Ok(asked.after.token))
      && ProofAccepted(svc, asked.after.token, proof)
    case ReProof(proof) =>
      && asked.message.ReConnect? && asked.after.ReconnectChallenge?
      && svc.initiateRelogin(j - 1, asked.identifier) == Ok(asked.after.retoken)
      && svc.reconnects(asked.after.retoken, proof.proofData, proof.clientProof)
    case _ => false
  }

  lemma ProofAnswers(svc: Services, handled: seq<Handled>, j: nat)
    requires Chained(svc, 0, Start, handled) && j < |handled| && (handled[j].message.Proof? || handled[j].message.ReProof?)
    ensures j > 0 && AnswersLastChallenge(svc, handled, j)
  {
    ChainedAt(svc, 0, Start, handled, j);
    if j > 0 {
      ChainedAt(svc, 0, Start, handled, j - 1);
    }
  }

  /** The realm list is only ever sent after an accepted proof with nothing but realm-list requests in between, and
      that proof was checked against the token issued to the message just before it. */
  lemma RealmListSafety(svc: Services, input: seq<byte>, handled: seq<Handled>, i: nat) returns (j: nat)
    requires handled == Serve(svc, 0, Start, input).handled && i < |handled| && handled[i].message.RealmList?
    ensures 0 < j < i && AnswersLastChallenge(svc, handled, j)
    ensures forall k :: j < k <= i ==> handled[k].message.RealmList?
  {
    ServeChained(svc, 0, Start, input);
    ChainedAt(svc, 0, Start, handled, i);
    j := BackToProof(svc, handled, i);
    ProofAnswers(svc, handled, j);
  }

  // ---- the language of conversations ----

  function Commands(handled: seq<Handled>): seq<Command> {
    if handled == [] then [] else [CommandIn(handled[0].message)] + Commands(handled[1..])
  }

  /** The state always records the last command handled. */
  predicate Remembers(previous: Option<Command>, state: State) {
    match previous
    case None => state.Start?
    case Some(ConnectCommand) => state.ConnectChallenge?
    case Some(ReConnectCommand) => state.ReconnectChallenge?
    case _ => state.Realmlist?
  }

  lemma TurnFollows(svc: Services, turn: nat, state: State, message: Message, rest: seq<byte>, previous: Option<Command>)
    requires Remembers(previous, state)
    ensures var r := Handle(svc, turn, state, message, rest);
            && (r.BadState? <==> !MayFollow(previous, CommandIn(message)))
            && (r.Next? ==> Remembers(Some(CommandIn(message)), r.state))
  {
  }

  /** After the commands `w`, the transcript goes on step by step and ends for a misplaced message exactly when that
      message may not follow. */
  predicate Follows(w: seq<Command>, t: Transcript) {
    var all := w + Commands(t.handled);
    && StepByStep(all)
    && (t.ending.Unreadable? || (t.ending.Misplaced? <==> !StepByStep(all + [CommandIn(t.ending.message)])))
  }

  lemma FollowsCons(w: seq<Command>, h: Handled, t: Transcript, c: Command)
    requires c == CommandIn(h.message) && Follows(w + [c], t)
    ensures Follows(w, Cons(h, t))
  {
    assert Cons(h, t).handled[1..] == t.handled;
    assert w + Commands(Cons(h, t).handled) == (w + [c]) + Commands(t.handled);
  }

  lemma FollowsEnd(w: seq<Command>, t: Transcript)
    requires t.handled == [] && StepByStep(w)
    requires t.ending.Unreadable? || (t.ending.Misplaced? <==> !MayFollow(Last(w), CommandIn(t.ending.message)))
    ensures Follows(w, t)
  {
    assert w + Commands(t.handled) == w;
    if !t.ending.Unreadable? {
      StepByStepAppend(w, CommandIn(t.ending.message));
    }
  }

  lemma {:induction false} ServeFollows(svc: Services, turn: nat, state: State, input: seq<byte>, w: seq<Command>)
    requires StepByStep(w) && Remembers(Last(w), state)
    ensures Follows(w, Serve(svc, turn, state, input))
    decreases |input|
  {
    var next, t := NextMessage(input), Serve(svc, turn, state, input);
    if next.None? {
      FollowsEnd(w, t);
    } else {
      var (message, rest) := next.value;
      var c, r := CommandIn(message), Handle(svc, turn, state, message, rest);
      TurnFollows(svc, turn, state, message, rest, Last(w));
      if r.Next? {
        StepByStepAppend(w, c);
        ServeFollows(svc, turn + 1, r.state, r.rest, w + [c]);
        FollowsCons(w, t.handled[0], Serve(svc, turn + 1, r.state, r.rest), c);
      } else {
        FollowsEnd(w, t);
      }
    }
  }

  /** The exact language: the messages handled always form a word of the language, and the conversation ends for a
      message in the wrong state exactly when that message would leave it. */
  lemma ExactLanguage(svc: Services, input: seq<byte>)
    ensures var t := Serve(svc, 0, Start, input);
            && InLanguage(Commands(t.handled))
            && (t.ending.Unreadable? ||
                (t.ending.Misplaced? <==> !InLanguage(Commands(t.handled) + [CommandIn(t.ending.message)])))
  {
    var t := Serve(svc, 0, Start, input);
    var w := Commands(t.handled);
    assert [] + w == w;
    ServeFollows(svc, 0, Start, input, []);
    LanguageIsStepByStep(w);
    if !t.ending.Unreadable? {
      LanguageIsStepByStep(w + [CommandIn(t.ending.message)]);
    }
  }

  // ---- byte streams of legal messages ----

  datatype Legal = Legal(message: Message, identifier: seq<byte>)

  /** Connects carry this build and a UTF-8 identifier of at most sixteen bytes; nothing else carries one. */
  predicate WellFormed(svc: Services, m: Legal) {
    match m.message
    case Connect(r) => CarriesIdentifier(svc, r, m.identifier)
    case ReConnect(r) => CarriesIdentifier(svc, r, m.identifier)
    case _ => m.identifier == []
  }

  predicate CarriesIdentifier(svc: Services, r: ConnectRequest, identifier: seq<byte>) {
    r.build == 12340 && r.identifierLength == |identifier| <= 16 && svc.utf8(identifier)
  }

  function Encoded(messages: seq<Legal>): seq<byte> {
    if messages == [] then []
    else [CommandByte(CommandIn(messages[0].message))] + EncodeBody(messages[0].message)
         + (messages[0].identifier + Encoded(messages[1..]))
  }

  /** The conversation consumed a stream of these messages one by one, each with its own identifier: it handled a
      prefix of them, and it stopped before the last only because the message behind that prefix was refused, out of
      place or made a handler panic; if it handled them all, nothing is left unread. */
  predicate ConsumedExactly(t: Transcript, messages: seq<Legal>)
    decreases |messages|
  {
    if t.handled == [] then
      if messages == [] then t.ending.Unreadable? && t.unread == []
      else
        && (t.ending.Refused? || t.ending.Misplaced? || t.ending.Crashed?)
        && t.ending.message == messages[0].message
        && (t.ending.Refused? ==> t.unread == Encoded(messages[1..]))
    else
      && messages != []
      && t.handled[0].message == messages[0].message && t.handled[0].identifier == messages[0].identifier
      && ConsumedExactly(Transcript(t.handled[1..], t.ending, t.unread), messages[1..])
  }

  lemma ConsumedCons(h: Handled, t: Transcript, messages: seq<Legal>)
    requires messages != [] && ConsumedExactly(t, messages[1..])
    requires h.message == messages[0].message && h.identifier == messages[0].identifier
    ensures ConsumedExactly(Cons(h, t), messages)
  {
    assert Cons(h, t).handled[1..] == t.handled;
  }

  /** Handling a legal message consumes exactly its identifier. */
  lemma OneLegal(svc: Services, turn: nat, state: State, m: Legal, rest: seq<byte>)
    requires WellFormed(svc, m)
    ensures var r := Handle(svc, turn, state, m.message, m.identifier + rest);
            && !r.Starve?
            && ((r.Next? || r.Refuse?) ==> r.rest == rest)
            && IdentifierIn(m.message, m.identifier + rest) == m.identifier
  {
    var input, n := m.identifier + rest, |m.identifier|;
    assert input[..n] == m.identifier && input[n..] == rest;
  }

  /** `read_packet` together with the handlers that read the trailing identifier consumes every stream of legal messages
      exactly, whatever the services answer. */
  lemma {:induction false} ParsesExactly(svc: Services, turn: nat, state: State, messages: seq<Legal>, input: seq<byte>)
    requires (forall m :: m in messages ==> WellFormed(svc, m)) && input == Encoded(messages)
    ensures ConsumedExactly(Serve(svc, turn, state, input), messages)
    decreases |messages|
  {
    if messages != [] {
      var m, rest := messages[0], Encoded(messages[1..]);
      var r, t := Handle(svc, turn, state, m.message, m.identifier + rest), Serve(svc, turn, state, input);
      NextEncoded(m.message, m.identifier + rest);
      OneLegal(svc, turn, state, m, rest);
      if r.Next? {
        ParsesExactly(svc, turn + 1, r.state, messages[1..], rest);
        ConsumedCons(t.handled[0], Serve(svc, turn + 1, r.state, rest), messages);
      }
    }
  }

  // ---- nothing else keeps a conversation from going on ----

  /** Services that let everybody in. */
  ghost predicate Willing(svc: Services) {
    && (forall turn, name :: svc.initiateLogin(turn, name).Returned? && svc.initiateLogin(turn, name).value.Ok?)
    && (forall turn, name :: svc.initiateRelogin(turn, name).Ok?)
    && (forall token, proof :: ProofAccepted(svc, token, proof))
    && (forall token, data, proof :: svc.reconnects(token, data, proof))
    && (forall turn :: svc.sessionStored(turn) && RealmListPacket(svc.realms(turn)).Returned?)
  }

  lemma WillingTurn(svc: Services, turn: nat, state: State, m: Legal, rest: seq<byte>)
    requires Willing(svc) && WellFormed(svc, m)
    ensures var r := Handle(svc, turn, state, m.message, m.identifier + rest); r.Next? || r.BadState?
  {
    var input, n := m.identifier + rest, |m.identifier|;
    assert input[..n] == m.identifier && input[n..] == rest;
    if m.message.Proof? && state.ConnectChallenge? {
      assert ProofAccepted(svc, state.token, m.message.proof);
    }
  }

  function CommandsIn(messages: seq<Legal>): seq<Command> {
    if messages == [] then [] else [CommandIn(messages[0].message)] + CommandsIn(messages[1..])
  }

  /** Every message was answered and the stream read to its end. */
  predicate AllHandled(t: Transcript, messages: seq<Legal>) {
    |t.handled| == |messages| && t.ending.Unreadable? && t.unread == []
  }

  /** One turn of the conversation on a legal message. */
  lemma ServeLegal(svc: Services, turn: nat, state: State, m: Legal, rest: seq<byte>, input: seq<byte>, r: Turn)
    requires WellFormed(svc, m) && r == Handle(svc, turn, state, m.message, m.identifier + rest)
    requires input == [CommandByte(CommandIn(m.message))] + EncodeBody(m.message) + (m.identifier + rest)
    ensures var t := Serve(svc, turn, state, input);
            if r.Next? then
              var next := Serve(svc, turn + 1, r.state, rest);
              |t.handled| == |next.handled| + 1 && t.ending == next.ending && t.unread == next.unread
            else !t.ending.Unreadable?
  {
    NextEncoded(m.message, m.identifier + rest);
    OneLegal(svc, turn, state, m, rest);
  }

  /** With willing services, a message that may follow is answered and one that may not ends the conversation. */
  lemma WillingServes(svc: Services, turn: nat, state: State, messages: seq<Legal>, previous: Option<Command>, input: seq<byte>)
    returns (after: State)
    requires Willing(svc) && messages != [] && WellFormed(svc, messages[0]) && input == Encoded(messages) && Remembers(previous, state)
    ensures var c, handled := CommandIn(messages[0].message), AllHandled(Serve(svc, turn, state, input), messages);
            if MayFollow(previous, c) then
              && Remembers(Some(c), after)
              && (handled <==> AllHandled(Serve(svc, turn + 1, after, Encoded(messages[1..])), messages[1..]))
            else !handled
  {
    var m, rest := messages[0], Encoded(messages[1..]);
    var r := Handle(svc, turn, state, m.message, m.identifier + rest);
    WillingTurn(svc, turn, state, m, rest);
    TurnFollows(svc, turn, state, m.message, m.identifier + rest, previous);
    ServeLegal(svc, turn, state, m, rest, input, r);
    after := if r.Next? then r.state else state;
  }

  /** A word goes on step by step only with a command that may follow. */
  lemma NextInWord(w: seq<Command>, c: Command, more: seq<Command>, whole: seq<Command>)
    requires StepByStep(w) && whole == w + ([c] + more)
    ensures whole == (w + [c]) + more && Last(w + [c]) == Some(c)
    ensures StepByStep(w + [c]) <==> MayFollow(Last(w), c)
    ensures StepByStep(whole) ==> MayFollow(Last(w), c)
  {
    StepByStepAppend(w, c);
    assert whole == (w + [c]) + more;
    if StepByStep(whole) {
      StepByStepPrefix(w + [c], whole);
    }
  }

  lemma {:induction false} WillingFrom(svc: Services, turn: nat, state: State, messages: seq<Legal>, input: seq<byte>,
                                       w: seq<Command>, whole: seq<Command>)
    requires Willing(svc) && (forall m :: m in messages ==> WellFormed(svc, m)) && input == Encoded(messages)
    requires StepByStep(w) && Remembers(Last(w), state) && whole == w + CommandsIn(messages)
    ensures AllHandled(Serve(svc, turn, state, input), messages) <==> StepByStep(whole)
    decreases |messages|
  {
    if messages == [] {
      assert whole == w;
    } else {
      var c := CommandIn(messages[0].message);
      var after := WillingServes(svc, turn, state, messages, Last(w), input);
      NextInWord(w, c, CommandsIn(messages[1..]), whole);
      if MayFollow(Last(w), c) {
        WillingFrom(svc, turn + 1, after, messages[1..], Encoded(messages[1..]), w + [c], whole);
      }
    }
  }

  /** The language from the other side: if the services let everybody in, a stream of legal messages is answered to its
      end exactly when its commands form a word of the language. */
  lemma LanguageSuffices(svc: Services, messages: seq<Legal>)
    requires Willing(svc) && forall m :: m in messages ==> WellFormed(svc, m)
    ensures AllHandled(Serve(svc, 0, Start, Encoded(messages)), messages) <==> InLanguage(CommandsIn(messages))
  {
    assert [] + CommandsIn(messages) == CommandsIn(messages);
    WillingFrom(svc, 0, Start, messages, Encoded(messages), [], CommandsIn(messages));
    LanguageIsStepByStep(CommandsIn(messages));
  }
}
