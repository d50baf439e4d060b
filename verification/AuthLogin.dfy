/** Login from end to end: the key agreement inside the conversation. What an honest client gets for its bytes, and
    what anybody who gets a realm list must have proved. */
module AuthLogin {
  import opened Bytes
  import opened Srp
  import opened SrpAgreement
  import opened AuthPackets
  import opened AuthServer
  import opened AuthConversation

  /** The verdicts are those of `ConnectToken::accept` and `ReconnectToken::accept` for one hash function. */
  ghost predicate UsesSrp(svc: Services, sha: Sha1) {
    && (forall token, key, proof :: svc.verdict(token, key, proof) == Accept(sha, token, key, proof))
    && (forall token, data, proof :: svc.reconnects(token, data, proof) == AcceptReconnect(sha, token, data, proof))
  }

  // ---- the honest client ----

  datatype Answer = Answer(m: Legal, after: State, reply: seq<byte>)

  function Messages(script: seq<Answer>): seq<Legal> {
    if script == [] then [] else [script[0].m] + Messages(script[1..])
  }

  /** Every message of the script is accepted in the state the one before left. */
  ghost predicate Accepted(svc: Services, turn: nat, state: State, script: seq<Answer>)
    decreases |script|
  {
    script != [] ==>
      var rest := Encoded(Messages(script[1..]));
      && WellFormed(svc, script[0].m)
      && Handle(svc, turn, state, script[0].m.message, script[0].m.identifier + rest) == Next(script[0].after, script[0].reply, rest)
      && Accepted(svc, turn + 1, script[0].after, script[1..])
  }

  /** The script was written out reply by reply and the input read to its end. */
  predicate Plays(t: Transcript, script: seq<Answer>)
    decreases |script|
  {
    && t.ending == Unreadable && t.unread == [] && |t.handled| == |script|
    && (script != [] ==>
          && t.handled[0].message == script[0].m.message && t.handled[0].reply == script[0].reply
          && Plays(Transcript(t.handled[1..], t.ending, t.unread), script[1..]))
  }

  lemma ServeNext(svc: Services, turn: nat, state: State, m: Legal, later: seq<Legal>, after: State, reply: seq<byte>)
    requires WellFormed(svc, m)
    requires Handle(svc, turn, state, m.message, m.identifier + Encoded(later)) == Next(after, reply, Encoded(later))
    ensures Serve(svc, turn, state, Encoded([m] + later))
            == Cons(Handled(turn, m.message, m.identifier, state, after, reply), Serve(svc, turn + 1, after, Encoded(later)))
  {
    var rest := m.identifier + Encoded(later);
    assert ([m] + later)[1..] == later;
    NextEncoded(m.message, rest);
    OneLegal(svc, turn, state, m, Encoded(later));
  }

  lemma PlaysCons(h: Handled, t: Transcript, script: seq<Answer>)
    requires script != [] && Plays(t, script[1..])
    requires h.message == script[0].m.message && h.reply == script[0].reply
    ensures Plays(Cons(h, t), script)
  {
    assert Cons(h, t).handled[1..] == t.handled;
  }

  lemma {:induction false} AcceptedPlays(svc: Services, turn: nat, state: State, script: seq<Answer>)
    requires Accepted(svc, turn, state, script)
    ensures Plays(Serve(svc, turn, state, Encoded(Messages(script))), script)
    decreases |script|
  {
    if script != [] {
      var first, later := script[0], Messages(script[1..]);
      AcceptedPlays(svc, turn + 1, first.after, script[1..]);
      ServeNext(svc, turn, state, first.m, later, first.after, first.reply);
      PlaysCons(Handled(turn, first.m.message, first.m.identifier, state, first.after, first.reply),
                Serve(svc, turn + 1, first.after, Encoded(later)), script);
    }
  }

  /** The proof message of an honest client. */
  function HonestProof(sha: Sha1, client: Client, salt: Bytes32, bPub: Bytes32, crcHash: Bytes20, keys: byte, flags: byte): Message {
    Proof(ConnectProof(PublicKey(client), ClientM1(sha, client, salt, bPub), crcHash, keys, flags))
  }

  lemma ConnectTurn(svc: Services, turn: nat, state: State, request: ConnectRequest, username: seq<byte>, server: Server, rest: seq<byte>)
    requires CarriesIdentifier(svc, request, username) && svc.initiateLogin(turn, username) == Returned(Ok(server))
    ensures Handle(svc, turn, state, Connect(request), username + rest) == Next(ConnectChallenge(server), ChallengeReply(server), rest)
  {
    assert (username + rest)[..|username|] == username && (username + rest)[|username|..] == rest;
  }

  lemma ProofTurn(svc: Services, turn: nat, sha: Sha1, client: Client, salt: Bytes32, b: Bytes32, server: Server,
                  crcHash: Bytes20, keys: byte, flags: byte, rest: seq<byte>)
    requires UsesSrp(svc, sha) && SetUpFor(sha, client, salt, b, server) && svc.sessionStored(turn)
    requires ClientPremaster(sha, client, salt, server.bPub) >= Span(31)
    ensures Handle(svc, turn, ConnectChallenge(server), HonestProof(sha, client, salt, server.bPub, crcHash, keys, flags), rest)
            == Next(Realmlist, ProofReply(ExpectedM2(sha, client, salt, server.bPub)), rest)
  {
    HonestLogin(sha, client, salt, b, server);
  }

  /** What a client learns from a challenge. */
  datatype Challenge = Challenge(bPub: Bytes32, generator: nat, modulus: nat, salt: Bytes32)

  function ReadChallenge(reply: seq<byte>): Option<Challenge> {
    if |reply| == 119 && reply[..3] == [0x00, 0x00, 0x00] && reply[35] == 1 && reply[37] == 32
    then Some(Challenge(reply[3..35], reply[36], FromLe(reply[38..70]), reply[70..102])) else None
  }

  lemma ChallengeLayout(head: seq<byte>, key: Bytes32, mid: seq<byte>, modulus: seq<byte>, salt: Bytes32, tail: seq<byte>,
                        reply: seq<byte>)
    requires |head| == 3 && |mid| == 3 && |modulus| == 32 && |tail| == 17
    requires reply == head + (key + (mid + (modulus + (salt + tail))))
    ensures |reply| == 119 && reply[..3] == head && reply[3..35] == key && reply[35..38] == mid
    ensures reply[38..70] == modulus && reply[70..102] == salt
  {
  }

  lemma ChallengeWithReadBack(token: Server, modulus: seq<byte>, reply: seq<byte>)
    requires |modulus| == 32 && reply == ChallengeWith(token, modulus)
    ensures ReadChallenge(reply) == Some(Challenge(token.bPub, G, FromLe(modulus), token.salt))
  {
    var head, mid := [CommandByte(ConnectCommand), 0, ReturnByte(Success)], [1, G, 32];
    var tail := VERSION_CHALLENGE + [0];
    assert reply == head + (token.bPub + (mid + (modulus + (token.salt + tail))));
    ChallengeLayout(head, token.bPub, mid, modulus, token.salt, tail, reply);
    assert reply[35] == reply[35..38][0] && reply[36] == reply[35..38][1] && reply[37] == reply[35..38][2];
  }

  /** The challenge carries everything the honest client computes with: the server's public value, g, N and the salt. */
  lemma ChallengeReadBack(token: Server)
    ensures ReadChallenge(ChallengeReply(token)) == Some(Challenge(token.bPub, G, N, token.salt))
  {
    ModulusWidth();
    PaddedRoundTrip(N, 32);
    ChallengeWithReadBack(token, PadLe(N, 32), ChallengeReply(token));
  }

  /** The server's proof, as a client takes it out of the reply. */
  function ReadProof(reply: seq<byte>): Option<Bytes20> {
    if |reply| == 32 && reply[..2] == [0x01, 0x00] then Some(reply[2..22]) else None
  }

  lemma ProofReadBack(m2: Bytes20)
    ensures ReadProof(ProofReply(m2)) == Some(m2)
  {
    assert ProofReply(m2)[..2] == [0x01, 0x00] && ProofReply(m2)[2..22] == m2;
  }

  /** The challenge of a reconnect, as a client takes it out of the reply. */
  function ReadReconnect(reply: seq<byte>): Option<Bytes16> {
    if |reply| == 34 && reply[..2] == [0x02, 0x00] then Some(reply[2..18]) else None
  }

  lemma ReconnectReadBack(token: ReconnectToken)
    ensures ReadReconnect(ReconnectReply(token)) == Some(token.reconnectProof)
  {
    assert ReconnectReply(token)[..2] == [0x02, 0x00];
    assert ReconnectReply(token)[2..18] == token.reconnectProof;
  }

  lemma PlayedReplies(t: Transcript, script: seq<Answer>)
    requires Plays(t, script) && |script| == 3
    ensures |t.handled| == 3 && t.handled[0].reply == script[0].reply && t.handled[1].reply == script[1].reply
  {
    assert script[1..][0] == script[1] && t.handled[1..][0] == t.handled[1];
  }

  /** Connect, prove, ask for the realm list: what an honest client sends and what it is to receive. */
  function HonestScript(svc: Services, turn: nat, server: Server, request: ConnectRequest, username: seq<byte>, proof: Message,
                        m2: Bytes20, padding: Bytes4): seq<Answer>
    requires RealmListPacket(svc.realms(turn + 2)).Returned?
  {
    [Answer(Legal(Connect(request), username), ConnectChallenge(server), ChallengeReply(server)),
     Answer(Legal(proof, []), Realmlist, ProofReply(m2)),
     Answer(Legal(RealmList(padding), []), Realmlist, RealmListPacket(svc.realms(turn + 2)).value)]
  }

  lemma RealmListTurn(svc: Services, turn: nat, m: Legal, script: seq<Answer>)
    requires RealmListPacket(svc.realms(turn)).Returned? && m.message.RealmList? && m.identifier == []
    requires script == [Answer(m, Realmlist, RealmListPacket(svc.realms(turn)).value)]
    ensures Accepted(svc, turn, Realmlist, script)
  {
    assert script[1..] == [];
    assert [] + Encoded([]) == Encoded([]);
  }

  lemma EmptyIdentifier(rest: seq<byte>)
    ensures [] + rest == rest
  {
  }

  /** At any point of any conversation: an honest client that connects, proves itself and asks for the realm list is
      sent the challenge of its own token, the M2 it expects and the realm list, finds each in its reply, and has its
      bytes consumed to the last. */
  lemma HonestConversation(svc: Services, turn: nat, state: State, sha: Sha1, client: Client, salt: Bytes32, b: Bytes32, server: Server,
                           request: ConnectRequest, crcHash: Bytes20, keys: byte, flags: byte, padding: Bytes4, script: seq<Answer>)
    requires UsesSrp(svc, sha) && SetUpFor(sha, client, salt, b, server)
    requires ClientPremaster(sha, client, salt, server.bPub) >= Span(31)
    requires CarriesIdentifier(svc, request, client.username)
    requires svc.initiateLogin(turn, client.username) == Returned(Ok(server)) && svc.sessionStored(turn + 1)
    requires RealmListPacket(svc.realms(turn + 2)).Returned?
    requires script == HonestScript(svc, turn, server, request, client.username,
                                    HonestProof(sha, client, salt, server.bPub, crcHash, keys, flags),
                                    ExpectedM2(sha, client, salt, server.bPub), padding)
    ensures var t := Serve(svc, turn, state, Encoded(Messages(script)));
            && Plays(t, script)
            && ReadChallenge(t.handled[0].reply) == Some(Challenge(server.bPub, G, N, server.salt))
            && ReadProof(t.handled[1].reply) == Some(ExpectedM2(sha, client, salt, server.bPub))
  {
    ChallengeReadBack(server);
    ProofReadBack(ExpectedM2(sha, client, salt, server.bPub));
    HonestPlays(svc, turn, state, sha, client, salt, b, server, request, crcHash, keys, flags, padding, script);
    PlayedReplies(Serve(svc, turn, state, Encoded(Messages(script))), script);
  }

  lemma HonestPlays(svc: Services, turn: nat, state: State, sha: Sha1, client: Client, salt: Bytes32, b: Bytes32, server: Server,
                    request: ConnectRequest, crcHash: Bytes20, keys: byte, flags: byte, padding: Bytes4, script: seq<Answer>)
    requires UsesSrp(svc, sha) && SetUpFor(sha, client, salt, b, server)
    requires ClientPremaster(sha, client, salt, server.bPub) >= Span(31)
    requires CarriesIdentifier(svc, request, client.username)
    requires svc.initiateLogin(turn, client.username) == Returned(Ok(server)) && svc.sessionStored(turn + 1)
    requires RealmListPacket(svc.realms(turn + 2)).Returned?
    requires script == HonestScript(svc, turn, server, request, client.username,
                                    HonestProof(sha, client, salt, server.bPub, crcHash, keys, flags),
                                    ExpectedM2(sha, client, salt, server.bPub), padding)
    ensures Plays(Serve(svc, turn, state, Encoded(Messages(script))), script)
  {
    var later := script[1..];
    assert later[1..] == [script[2]];
    RealmListTurn(svc, turn + 2, script[2].m, later[1..]);
    var rest := Encoded(Messages(later[1..]));
    ProofTurn(svc, turn + 1, sha, client, salt, b, server, crcHash, keys, flags, rest);
    EmptyIdentifier(rest);
    assert Accepted(svc, turn + 1, ConnectChallenge(server), later);
    ConnectTurn(svc, turn, state, request, client.username, server, Encoded(Messages(later)));
    AcceptedPlays(svc, turn, state, script);
  }

  /** Reconnect, prove, ask for the realm list. */
  function ResumeScript(svc: Services, turn: nat, token: ReconnectToken, request: ConnectRequest, username: seq<byte>,
                        proof: ReconnectProof, padding: Bytes4): seq<Answer>
    requires RealmListPacket(svc.realms(turn + 2)).Returned?
  {
    [Answer(Legal(ReConnect(request), username), ReconnectChallenge(token), ReconnectReply(token)),
     Answer(Legal(ReProof(proof), []), Realmlist, ReproofReply()),
     Answer(Legal(RealmList(padding), []), Realmlist, RealmListPacket(svc.realms(turn + 2)).value)]
  }

  lemma ReconnectTurn(svc: Services, turn: nat, state: State, request: ConnectRequest, username: seq<byte>, token: ReconnectToken,
                      rest: seq<byte>)
    requires CarriesIdentifier(svc, request, username) && svc.initiateRelogin(turn, username) == Ok(token)
    ensures Handle(svc, turn, state, ReConnect(request), username + rest) == Next(ReconnectChallenge(token), ReconnectReply(token), rest)
  {
    assert (username + rest)[..|username|] == username && (username + rest)[|username|..] == rest;
  }

  lemma ResumePlays(svc: Services, turn: nat, state: State, token: ReconnectToken, request: ConnectRequest, username: seq<byte>,
                    proof: ReconnectProof, padding: Bytes4, script: seq<Answer>)
    requires CarriesIdentifier(svc, request, username) && svc.initiateRelogin(turn, username) == Ok(token)
    requires svc.reconnects(token, proof.proofData, proof.clientProof) && RealmListPacket(svc.realms(turn + 2)).Returned?
    requires script == ResumeScript(svc, turn, token, request, username, proof, padding)
    ensures Plays(Serve(svc, turn, state, Encoded(Messages(script))), script)
  {
    var later := script[1..];
    assert later[1..] == [script[2]];
    RealmListTurn(svc, turn + 2, script[2].m, later[1..]);
    EmptyIdentifier(Encoded(Messages(later[1..])));
    assert Accepted(svc, turn + 1, ReconnectChallenge(token), later);
    ReconnectTurn(svc, turn, state, request, username, token, Encoded(Messages(later)));
    AcceptedPlays(svc, turn, state, script);
  }

  /** At any point of any conversation: a client whose login was accepted, and whose key is the one stored for it, finds the
      challenge in the reply to its reconnect, answers it with the key it derived itself, and gets the realm list. */
  lemma HonestResume(svc: Services, turn: nat, state: State, sha: Sha1, client: Client, salt: Bytes32, b: Bytes32, server: Server,
                     m2: Bytes20, key: Bytes40, challenge: Bytes16, request: ConnectRequest, proof: ReconnectProof, padding: Bytes4,
                     script: seq<Answer>)
    requires UsesSrp(svc, sha) && SetUpFor(sha, client, salt, b, server)
    requires Accept(sha, server, PublicKey(client), ClientM1(sha, client, salt, server.bPub)) == Returned(Ok((m2, key)))
    requires CarriesIdentifier(svc, request, client.username)
    requires svc.initiateRelogin(turn, client.username) == Ok(ReconnectToken(challenge, client.username, key))
    requires RealmListPacket(svc.realms(turn + 2)).Returned?
    requires proof.clientProof == sha(client.username + proof.proofData + challenge + ClientKey(sha, client, salt, server.bPub))
    requires script == ResumeScript(svc, turn, ReconnectToken(challenge, client.username, key), request, client.username, proof, padding)
    ensures var t := Serve(svc, turn, state, Encoded(Messages(script)));
            Plays(t, script) && ReadReconnect(t.handled[0].reply) == Some(challenge)
  {
    var token := ReconnectToken(challenge, client.username, key);
    HonestReconnect(sha, client, salt, b, server, key, m2, challenge, proof.proofData);
    ReconnectReadBack(token);
    ResumePlays(svc, turn, state, token, request, client.username, proof, padding, script);
    PlayedReplies(Serve(svc, turn, state, Encoded(Messages(script))), script);
  }

  // ---- anybody else ----

  /** Whoever gets a realm list has, for the token issued just before, sent a public value that is not zero mod N and
      the M1 computed from the shared secret -- or, resuming, the digest of the stored session key. */
  lemma RealmListNeedsTheKey(svc: Services, sha: Sha1, input: seq<byte>, handled: seq<Handled>, i: nat) returns (j: nat)
    requires UsesSrp(svc, sha)
    requires handled == Serve(svc, 0, Start, input).handled && i < |handled| && handled[i].message.RealmList?
    ensures 0 < j < i && (handled[j].message.Proof? || handled[j].message.ReProof?)
    ensures handled[j].message.Proof? ==>
              var proof := handled[j].message.proof;
              && handled[j - 1].after.ConnectChallenge?
              && var token := handled[j - 1].after.token;
                 && svc.initiateLogin(j - 1, handled[j - 1].identifier) == Returned(Ok(token))
                 && FromLe(proof.userPublicKey) % N != 0
                 && proof.userProof == RightProof(sha, token, proof.userPublicKey)
    ensures handled[j].message.ReProof? ==>
              var proof := handled[j].message.reproof;
              && handled[j - 1].after.ReconnectChallenge?
              && var token := handled[j - 1].after.retoken;
                 && svc.initiateRelogin(j - 1, handled[j - 1].identifier) == Ok(token)
                 && proof.clientProof == sha(token.username + proof.proofData + token.reconnectProof + token.sessionKey)
  {
    j := RealmListSafety(svc, input, handled, i);
    if handled[j].message.Proof? {
      var proof := handled[j].message.proof;
      AcceptExact(sha, handled[j - 1].after.token, proof.userPublicKey, proof.userProof);
    }
  }

  // ---- every answer of the server, byte by byte ----

  const VERSION_BYTES: seq<byte> :=
    [0xBA, 0xA3, 0x1E, 0x99, 0xA0, 0x0B, 0x21, 0x57, 0xFC, 0x37, 0x3F, 0xB3, 0x69, 0xCD, 0xD2, 0xF1]

  lemma ReplyBytes(token: Server, resumed: ReconnectToken, m2: Bytes20)
    ensures ChallengeReply(token) == [0x00, 0x00, 0x00] + token.bPub + [1, 7, 32] + PadLe(N, 32) + token.salt + VERSION_BYTES + [0]
    ensures ProofReply(m2) == [0x01, 0x00] + m2 + [0x00, 0x00, 0x80, 0x00, 0, 0, 0, 0, 0, 0]
    ensures ReconnectReply(resumed) == [0x02, 0x00] + resumed.reconnectProof + VERSION_BYTES
    ensures ReproofReply() == [0x03, 0x00, 0x00, 0x00]
  {
    assert [1, G] + [32] == [1, 7, 32];
    ZeroBytes();
  }

  lemma ZeroBytes()
    ensures PadLe(0x0080_0000, 4) == [0x00, 0x00, 0x80, 0x00] && PadLe(0, 4) == [0, 0, 0, 0]
  {
    assert PadLe(0, 1) == [0] && PadLe(0, 2) == [0, 0] && PadLe(0, 3) == [0, 0, 0];
    assert PadLe(0x80, 2) == [0x80, 0x00] && PadLe(0x8000, 3) == [0x00, 0x80, 0x00];
  }

  /** What a failure is called on the wire. */
  function FailureByte(f: LoginFailure): byte {
    match f
    case Suspended => 0x0C
    case Banned => 0x03
    case UnknownAccount => 0x04
    case IncorrectPassword => 0x05
    case DatabaseError => 0x01
  }

  /** The conversation ended with this one write, having read up to `rest`. */
  predicate EndsWith(t: Transcript, write: seq<byte>, rest: seq<byte>) {
    t.handled == [] && t.ending.Refused? && Writes(t) == [write] && t.unread == rest
  }

  /** The conversation ended without a word. */
  predicate EndsSilently(t: Transcript) {
    t.handled == [] && Writes(t) == []
  }

  lemma Refusal(svc: Services, turn: nat, state: State, m: Message, rest: seq<byte>, input: seq<byte>, r: Turn)
    requires input == [CommandByte(CommandIn(m))] + EncodeBody(m) + rest && r == Handle(svc, turn, state, m, rest) && !r.Next?
    ensures var t := Serve(svc, turn, state, input);
            && t.handled == []
            && (r.Refuse? ==> t.ending == Refused(m, r.command, r.reason) && t.unread == r.rest
                              && Writes(t) == [[CommandByte(r.command), 0, ReturnByte(r.reason)]])
            && (!r.Refuse? ==>
                  && Writes(t) == []
                  && t.ending == if r.Starve? then Starved(m) else if r.BadState? then Misplaced(m) else Crashed(m))
  {
    NextEncoded(m, rest);
    assert Replies([]) == [];
    assert [] + Rejection(Serve(svc, turn, state, input).ending) == Rejection(Serve(svc, turn, state, input).ending);
  }

  /** Everything a connect or reconnect can be answered with but the challenge: another build, too long a name, too few
      bytes, a name that is not UTF-8, and each failure of the account service. */
  lemma ConnectRefused(svc: Services, turn: nat, state: State, request: ConnectRequest, again: bool, rest: seq<byte>, input: seq<byte>)
    requires input == [if again then 0x02 else 0x00] + EncodeRequest(request) + rest
    ensures var t, n, command := Serve(svc, turn, state, input), request.identifierLength, if again then 0x02 else 0x00;
            && (request.build != 12340 ==> EndsWith(t, [command, 0x00, 0x09], rest))
            && (request.build == 12340 && n > 16 ==> EndsSilently(t) && t.ending.Crashed?)
            && (request.build == 12340 && |rest| < n <= 16 ==> EndsSilently(t) && t.ending.Starved?)
            && (request.build == 12340 && n <= 16 && n <= |rest| && !svc.utf8(rest[..n]) ==>
                  EndsWith(t, [command, 0x00, 0x01], rest[n..]))
  {
    var m := if again then ReConnect(request) else Connect(request);
    var r := Handle(svc, turn, state, m, rest);
    if !r.Next? {
      Refusal(svc, turn, state, m, rest, input, r);
    }
  }

  lemma ServiceRefuses(svc: Services, turn: nat, state: State, request: ConnectRequest, again: bool, rest: seq<byte>,
                       input: seq<byte>, f: LoginFailure)
    requires input == [if again then 0x02 else 0x00] + EncodeRequest(request) + rest
    requires request.build == 12340 && request.identifierLength <= 16 && request.identifierLength <= |rest|
    requires svc.utf8(rest[..request.identifierLength])
    requires if again then svc.initiateRelogin(turn, rest[..request.identifierLength]) == Err(f)
             else svc.initiateLogin(turn, rest[..request.identifierLength]) == Returned(Err(f))
    ensures EndsWith(Serve(svc, turn, state, input), [if again then 0x02 else 0x00, 0x00, FailureByte(f)], rest[request.identifierLength..])
  {
    var m := if again then ReConnect(request) else Connect(request);
    var r := Handle(svc, turn, state, m, rest);
    assert r == Refuse(if again then ReConnectCommand else ConnectCommand, ReasonFor(f), rest[request.identifierLength..]);
    assert ReturnByte(ReasonFor(f)) == FailureByte(f);
    Refusal(svc, turn, state, m, rest, input, r);
  }

  /** A wrong password: any proof but the right one, or a public value of zero, is refused with these three bytes. */
  lemma WrongProof(svc: Services, turn: nat, sha: Sha1, server: Server, p: ConnectProof, rest: seq<byte>, input: seq<byte>)
    requires UsesSrp(svc, sha) && input == [0x01] + EncodeProof(p) + rest
    requires FromLe(p.userPublicKey) % N == 0
             || (SharedSecret(sha, server, p.userPublicKey) >= Span(31) && p.userProof != RightProof(sha, server, p.userPublicKey))
    ensures var t := Serve(svc, turn, ConnectChallenge(server), input);
            EndsWith(t, [0x01, 0x00, 0x05], rest) && t.ending == Refused(Proof(p), ProofCommand, IncorrectPasswordCode)
  {
    AcceptExact(sha, server, p.userPublicKey, p.userProof);
    Refusal(svc, turn, ConnectChallenge(server), Proof(p), rest, input, Handle(svc, turn, ConnectChallenge(server), Proof(p), rest));
  }

  /** Any proof with a secret too short for 32 bytes ends the connection in a panic. */
  lemma ShortSecret(svc: Services, turn: nat, sha: Sha1, server: Server, p: ConnectProof, rest: seq<byte>, input: seq<byte>)
    requires UsesSrp(svc, sha) && input == [0x01] + EncodeProof(p) + rest
    requires FromLe(p.userPublicKey) % N != 0 && SharedSecret(sha, server, p.userPublicKey) < Span(31)
    ensures var t := Serve(svc, turn, ConnectChallenge(server), input); EndsSilently(t) && t.ending == Crashed(Proof(p))
  {
    AcceptExact(sha, server, p.userPublicKey, p.userProof);
    Refusal(svc, turn, ConnectChallenge(server), Proof(p), rest, input, Handle(svc, turn, ConnectChallenge(server), Proof(p), rest));
  }

  lemma StoreFails(svc: Services, turn: nat, token: Server, p: ConnectProof, rest: seq<byte>)
    requires ProofAccepted(svc, token, p) && !svc.sessionStored(turn)
    ensures Handle(svc, turn, ConnectChallenge(token), Proof(p), rest) == Refuse(ProofCommand, Failed, rest)
  {
  }

  lemma RightProofAccepted(svc: Services, sha: Sha1, server: Server, p: ConnectProof)
    requires UsesSrp(svc, sha) && FromLe(p.userPublicKey) % N != 0 && SharedSecret(sha, server, p.userPublicKey) >= Span(31)
    requires p.userProof == RightProof(sha, server, p.userPublicKey)
    ensures ProofAccepted(svc, server, p)
  {
    AcceptExact(sha, server, p.userPublicKey, p.userProof);
  }

  /** The right proof is refused if the session cannot be stored. */
  lemma NotStored(svc: Services, turn: nat, sha: Sha1, server: Server, p: ConnectProof, rest: seq<byte>, input: seq<byte>)
    requires UsesSrp(svc, sha) && input == [0x01] + EncodeProof(p) + rest && !svc.sessionStored(turn)
    requires FromLe(p.userPublicKey) % N != 0 && SharedSecret(sha, server, p.userPublicKey) >= Span(31)
    requires p.userProof == RightProof(sha, server, p.userPublicKey)
    ensures EndsWith(Serve(svc, turn, ConnectChallenge(server), input), [0x01, 0x00, 0x01], rest)
  {
    RightProofAccepted(svc, sha, server, p);
    StoreFails(svc, turn, server, p, rest);
    Refusal(svc, turn, ConnectChallenge(server), Proof(p), rest, input, Refuse(ProofCommand, Failed, rest));
  }

  /** A wrong answer to a reconnect. */
  lemma WrongReproof(svc: Services, turn: nat, sha: Sha1, token: ReconnectToken, p: ReconnectProof, rest: seq<byte>, input: seq<byte>)
    requires UsesSrp(svc, sha) && input == [0x03] + EncodeReproof(p) + rest
    requires p.clientProof != sha(token.username + p.proofData + token.reconnectProof + token.sessionKey)
    ensures EndsWith(Serve(svc, turn, ReconnectChallenge(token), input), [0x02, 0x00, 0x05], rest)
  {
    Refusal(svc, turn, ReconnectChallenge(token), ReProof(p), rest, input,
            Handle(svc, turn, ReconnectChallenge(token), ReProof(p), rest));
  }

  /** A message in the wrong state ends the connection without a word. */
  lemma OutOfPlace(svc: Services, turn: nat, state: State, m: Message, rest: seq<byte>, input: seq<byte>)
    requires input == [CommandByte(CommandIn(m))] + EncodeBody(m) + rest
    requires (m.Proof? && !state.ConnectChallenge?) || (m.ReProof? && !state.ReconnectChallenge?) || (m.RealmList? && !state.Realmlist?)
    ensures var t := Serve(svc, turn, state, input); EndsSilently(t) && t.ending == Misplaced(m)
  {
    Refusal(svc, turn, state, m, rest, input, Handle(svc, turn, state, m, rest));
  }

  lemma ChallengeThen(svc: Services, turn: nat, state: State, server: Server, request: ConnectRequest, username: seq<byte>,
                      later: seq<byte>, input: seq<byte>)
    requires svc.initiateLogin(turn, username) == Returned(Ok(server)) && CarriesIdentifier(svc, request, username)
    requires input == [0x00] + EncodeRequest(request) + (username + later)
    ensures Serve(svc, turn, state, input)
            == Cons(Handled(turn, Connect(request), username, state, ConnectChallenge(server), ChallengeReply(server)),
                    Serve(svc, turn + 1, ConnectChallenge(server), later))
  {
    NextEncoded(Connect(request), username + later);
    ConnectTurn(svc, turn, state, request, username, server, later);
    assert (username + later)[..|username|] == username;
  }

  lemma WritesCons(h: Handled, t: Transcript)
    ensures Writes(Cons(h, t)) == [h.reply] + Writes(t)
  {
    assert Cons(h, t).handled[1..] == t.handled;
  }

  /** From any point of any conversation: a user who connects and types a wrong password gets the challenge and then the
      refusal, and that is all the server writes. */
  lemma WrongPassword(svc: Services, turn: nat, state: State, sha: Sha1, server: Server, request: ConnectRequest, username: seq<byte>,
                      p: ConnectProof, rest: seq<byte>, input: seq<byte>)
    requires UsesSrp(svc, sha) && svc.initiateLogin(turn, username) == Returned(Ok(server))
    requires request.build == 12340 && request.identifierLength == |username| <= 16 && svc.utf8(username)
    requires FromLe(p.userPublicKey) % N == 0
             || (SharedSecret(sha, server, p.userPublicKey) >= Span(31) && p.userProof != RightProof(sha, server, p.userPublicKey))
    requires input == [0x00] + EncodeRequest(request) + (username + ([0x01] + EncodeProof(p) + rest))
    ensures var t := Serve(svc, turn, state, input);
            && |t.handled| == 1 && t.unread == rest
            && Writes(t) == [ChallengeReply(server), [0x01, 0x00, 0x05]]
  {
    var later := [0x01] + EncodeProof(p) + rest;
    var next := Serve(svc, turn + 1, ConnectChallenge(server), later);
    WrongProof(svc, turn + 1, sha, server, p, rest, later);
    ChallengeThen(svc, turn, state, server, request, username, later, input);
    WritesCons(Handled(turn, Connect(request), username, state, ConnectChallenge(server), ChallengeReply(server)), next);
  }
}
