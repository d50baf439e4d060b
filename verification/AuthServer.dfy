/** One client's conversation with the auth server (services/auth/src/authserver.rs, `connect_loop` and its handlers). */
module AuthServer {
  import opened Bytes
  import opened Parsing
  import opened Srp
  import opened AuthPackets

  datatype State = Start | ConnectChallenge(token: Server) | ReconnectChallenge(retoken: ReconnectToken) | Realmlist

  /** Everything outside the loop. Each call may answer differently on each turn, so turns are numbered. */
  datatype Services = Services(
    verdict: (Server, Bytes32, Bytes20) -> Outcome<Result<(Bytes20, Bytes40), LoginFailure>>,
    reconnects: (ReconnectToken, Bytes16, Bytes20) -> bool,
    utf8: seq<byte> -> bool,
    initiateLogin: (nat, seq<byte>) -> Outcome<Result<Server, LoginFailure>>,
    initiateRelogin: (nat, seq<byte>) -> Result<ReconnectToken, LoginFailure>,
    sessionStored: nat -> bool,
    realms: nat -> seq<Realm>)

  /** What handling one message comes to. */
  datatype Turn =
    | Next(state: State, reply: seq<byte>, rest: seq<byte>)
    | Refuse(command: Command, reason: ReturnCode, rest: seq<byte>)
    | Starve
    | BadState
    | Panic

  const VERSION_CHALLENGE: Bytes16 :=
    [0xBA, 0xA3, 0x1E, 0x99, 0xA0, 0x0B, 0x21, 0x57, 0xFC, 0x37, 0x3F, 0xB3, 0x69, 0xCD, 0xD2, 0xF1]

  const IDENTIFIER_LIMIT: nat := 16

  // ---- replies ----

  function ChallengeWith(token: Server, modulus: seq<byte>): seq<byte> {
    [CommandByte(ConnectCommand), 0, ReturnByte(Success)]
    + token.bPub + [1, G] + [32] + modulus + token.salt + VERSION_CHALLENGE + [0]
  }

  function ChallengeReply(token: Server): seq<byte> {
    ChallengeWith(token, PadLe(N, 32))
  }

  function ProofReply(m2: Bytes20): seq<byte> {
    [CommandByte(ProofCommand), 0] + m2 + PadLe(0x0080_0000, 4) + PadLe(0, 4) + PutLe16(0)
  }

  function ReconnectReply(token: ReconnectToken): seq<byte> {
    [CommandByte(ReConnectCommand), ReturnByte(Success)] + token.reconnectProof + VERSION_CHALLENGE
  }

  function ReproofReply(): seq<byte> {
    [CommandByte(ReProofCommand), ReturnByte(Success)] + PutLe16(0)
  }

  function RejectReply(command: Command, reason: ReturnCode): seq<byte> {
    [CommandByte(command), 0, ReturnByte(reason)]
  }

  // ---- handlers, as functions of the unread input ----

  /** `complete_login`: the token's verdict, then the update of the stored session. */
  function CompleteLogin(svc: Services, turn: nat, token: Server, proof: ConnectProof): Outcome<Result<Bytes20, LoginFailure>> {
    match svc.verdict(token, proof.userPublicKey, proof.userProof)
    case Panicked => Panicked
    case Returned(Err(f)) => Returned(Err(f))
    case Returned(Ok(pair)) => if svc.sessionStored(turn) then Returned(Ok(pair.0)) else Returned(Err(DatabaseError))
  }

  function AfterConnect(svc: Services, turn: nat, name: seq<byte>, rest: seq<byte>): Turn {
    if !svc.utf8(name) then Refuse(ConnectCommand, Failed, rest)
    else match svc.initiateLogin(turn, name)
      case Panicked => Panic
      case Returned(Err(f)) => Refuse(ConnectCommand, ReasonFor(f), rest)
      case Returned(Ok(token)) => Next(ConnectChallenge(token), ChallengeReply(token), rest)
  }

  function AfterReconnect(svc: Services, turn: nat, name: seq<byte>, rest: seq<byte>): Turn {
    if !svc.utf8(name) then Refuse(ReConnectCommand, Failed, rest)
    else match svc.initiateRelogin(turn, name)
      case Err(f) => Refuse(ReConnectCommand, ReasonFor(f), rest)
      case Ok(token) => Next(ReconnectChallenge(token), ReconnectReply(token), rest)
  }

  /** The identifier that trails a connect request of the right build. */
  predicate HasIdentifier(request: ConnectRequest, rest: seq<byte>) {
    request.build == BUILD && request.identifierLength <= IDENTIFIER_LIMIT && request.identifierLength <= |rest|
  }

  function HandleConnect(svc: Services, turn: nat, request: ConnectRequest, rest: seq<byte>, again: bool): Turn {
    var n := request.identifierLength;
    if request.build != BUILD then Refuse(if again then ReConnectCommand else ConnectCommand, VersionInvalid, rest)
    else if n > IDENTIFIER_LIMIT then Panic
    else if |rest| < n then Starve
    else if again then AfterReconnect(svc, turn, rest[..n], rest[n..])
    else AfterConnect(svc, turn, rest[..n], rest[n..])
  }

  function HandleProof(svc: Services, turn: nat, token: Server, proof: ConnectProof, rest: seq<byte>): Turn {
    match CompleteLogin(svc, turn, token, proof)
    case Panicked => Panic
    case Returned(Err(f)) => Refuse(ProofCommand, ReasonFor(f), rest)
    case Returned(Ok(m2)) => Next(Realmlist, ProofReply(m2), rest)
  }

  function HandleReproof(svc: Services, token: ReconnectToken, proof: ReconnectProof, rest: seq<byte>): Turn {
    if svc.reconnects(token, proof.proofData, proof.clientProof)
    then Next(Realmlist, ReproofReply(), rest)
    else Refuse(ReConnectCommand, ReasonFor(IncorrectPassword), rest)
  }

  function HandleRealmlist(svc: Services, turn: nat, rest: seq<byte>): Turn {
    match RealmListPacket(svc.realms(turn))
    case Panicked => Panic
    case Returned(packet) => Next(Realmlist, packet, rest)
  }

  /** The match over state and message. */
  function Handle(svc: Services, turn: nat, state: State, message: Message, rest: seq<byte>): (r: Turn)
    ensures r.Next? ==> |r.rest| <= |rest|
  {
    match message
    case Connect(request) => HandleConnect(svc, turn, request, rest, false)
    case ReConnect(request) => HandleConnect(svc, turn, request, rest, true)
    case Proof(proof) => if state.ConnectChallenge? then HandleProof(svc, turn, state.token, proof, rest) else BadState
    case ReProof(proof) => if state.ReconnectChallenge? then HandleReproof(svc, state.retoken, proof, rest) else BadState
    case RealmList(_) => if state.Realmlist? then HandleRealmlist(svc, turn, rest) else BadState
  }

  // ---- whole conversations ----

  datatype Handled = Handled(turn: nat, message: Message, identifier: seq<byte>, before: State, after: State, reply: seq<byte>)

  /** Why a conversation ended: nothing more could be read, or handling this message ended it. */
  datatype Ending =
    | Unreadable
    | Refused(message: Message, command: Command, reason: ReturnCode)
    | Starved(message: Message)
    | Misplaced(message: Message)
    | Crashed(message: Message)

  datatype Transcript = Transcript(handled: seq<Handled>, ending: Ending, unread: seq<byte>)

  function IdentifierIn(message: Message, rest: seq<byte>): seq<byte> {
    if (message.Connect? || message.ReConnect?) && HasIdentifier(message.request, rest)
    then rest[..message.request.identifierLength] else []
  }

  function Cons(h: Handled, t: Transcript): Transcript {
    Transcript([h] + t.handled, t.ending, t.unread)
  }

  function Serve(svc: Services, turn: nat, state: State, input: seq<byte>): Transcript
    decreases |input|
  {
    match NextMessage(input)
    case None => Transcript([], Unreadable, input)
    case Some((message, rest)) =>
      match Handle(svc, turn, state, message, rest)
      case Next(after, reply, remaining) =>
        Cons(Handled(turn, message, IdentifierIn(message, rest), state, after, reply), Serve(svc, turn + 1, after, remaining))
      case Refuse(command, reason, remaining) => Transcript([], Refused(message, command, reason), remaining)
      case Starve => Transcript([], Starved(message), rest)
      case BadState => Transcript([], Misplaced(message), rest)
      case Panic => Transcript([], Crashed(message), rest)
  }

  function Replies(handled: seq<Handled>): seq<seq<byte>> {
    seq(|handled|, i requires 0 <= i < |handled| => handled[i].reply)
  }

  /** Everything written: one reply for each message handled, then a rejection if there was one. */
  function Writes(t: Transcript): seq<seq<byte>> {
    Replies(t.handled) + Rejection(t.ending)
  }

  function Rejection(ending: Ending): seq<seq<byte>> {
    if ending.Refused? then [RejectReply(ending.command, ending.reason)] else []
  }

  // ---- the code: handlers on a stream ----

  /** What a handler method may do to the stream: consume what `turn` says, and write its reply if it has one. */
  twostate predicate Performed(stream: Stream, turn: Turn)
    reads stream
  {
    && stream.writes == old(stream.writes) + (if turn.Next? then [turn.reply] else [])
    && (turn.Next? || turn.Refuse? ==> stream.input == turn.rest)
  }

  method HandleConnectRequest(svc: Services, turn: nat, request: ConnectRequest, stream: Stream, again: bool) returns (r: Turn)
    modifies stream
    ensures r == HandleConnect(svc, turn, request, old(stream.input), again) && Performed(stream, r)
  {
    if request.build != BUILD {
      return Refuse(if again then ReConnectCommand else ConnectCommand, VersionInvalid, stream.input);
    }
    if request.identifierLength > IDENTIFIER_LIMIT {
      return Panic;
    }
    var username := stream.Read(request.identifierLength);
    if |username| < request.identifierLength {
      return Starve;
    }
    assert old(stream.input)[..request.identifierLength] == username;
    assert old(stream.input)[request.identifierLength..] == stream.input;
    r := if again then AfterReconnect(svc, turn, username, stream.input) else AfterConnect(svc, turn, username, stream.input);
    WriteReply(stream, r);
  }

  method HandleMessage(svc: Services, turn: nat, state: State, message: Message, stream: Stream) returns (r: Turn)
    modifies stream
    ensures r == Handle(svc, turn, state, message, old(stream.input)) && Performed(stream, r)
  {
    match message
    case Connect(request) =>
      r := HandleConnectRequest(svc, turn, request, stream, false);
    case ReConnect(request) =>
      r := HandleConnectRequest(svc, turn, request, stream, true);
    case Proof(proof) =>
      r := if state.ConnectChallenge? then HandleProof(svc, turn, state.token, proof, stream.input) else BadState;
      WriteReply(stream, r);
    case ReProof(proof) =>
      r := if state.ReconnectChallenge? then HandleReproof(svc, state.retoken, proof, stream.input) else BadState;
      WriteReply(stream, r);
    case RealmList(_) =>
      if state.Realmlist? {
        r := SendRealmlist(svc, turn, stream.input);
        WriteReply(stream, r);
      } else {
        r := BadState;
      }
  }

  method WriteReply(stream: Stream, turn: Turn)
    modifies stream`writes
    ensures stream.writes == old(stream.writes) + (if turn.Next? then [turn.reply] else [])
  {
    if turn.Next? {
      stream.WriteAll(turn.reply);
    }
  }

  method SendRealmlist(svc: Services, turn: nat, rest: seq<byte>) returns (r: Turn)
    ensures r == HandleRealmlist(svc, turn, rest)
  {
    var packet, _ := BuildRealmList(svc.realms(turn));
    r := if packet.Panicked? then Panic else Next(Realmlist, packet.value, rest);
  }

  /** What one turn of the loop comes to: the next state, or the end. */
  datatype Progress = Continue(state: State) | Stop(ending: Ending)

  /** One turn of the loop: read, handle, and write the reply or the rejection. `todo` is the conversation from here on,
      `rest` what is left of it afterwards. */
  method TakeTurn(svc: Services, turn: nat, state: State, stream: Stream, ghost todo: Transcript)
    returns (p: Progress, ghost rest: Transcript)
    requires todo == Serve(svc, turn, state, stream.input)
    modifies stream
    ensures p.Continue? ==>
              && rest == Serve(svc, turn + 1, p.state, stream.input) && |stream.input| < |old(stream.input)|
              && todo.handled != [] && todo == Cons(todo.handled[0], rest)
              && stream.writes == old(stream.writes) + [todo.handled[0].reply]
    ensures p.Stop? ==>
              && todo.handled == [] && p.ending == todo.ending && stream.writes == old(stream.writes) + Rejection(todo.ending)
              && (p.ending.Refused? ==> stream.input == todo.unread)
  {
    rest := todo;
    var message := ReadPacket(stream);
    if message.None? {
      return Stop(Unreadable), rest;
    }
    var step := HandleMessage(svc, turn, state, message.value, stream);
    match step
    case Next(after, _, _) =>
      return Continue(after), Serve(svc, turn + 1, after, stream.input);
    case Refuse(command, reason, _) =>
      stream.WriteAll(RejectReply(command, reason));
      return Stop(Refused(message.value, command, reason)), rest;
    case Starve => return Stop(Starved(message.value)), rest;
    case BadState => return Stop(Misplaced(message.value)), rest;
    case Panic => return Stop(Crashed(message.value)), rest;
  }

  /** `connect_loop`: its writes are those of the conversation, one reply to each message handled and a rejection, if
      any, last. */
  method ConnectLoop(svc: Services, stream: Stream) returns (ending: Ending)
    modifies stream
    ensures var t := Serve(svc, 0, Start, old(stream.input));
            && ending == t.ending
            && stream.writes == old(stream.writes) + Writes(t)
            && (ending.Refused? ==> stream.input == t.unread)
  {
    var state, turn := Start, 0;
    ghost var all := Serve(svc, 0, Start, stream.input);
    ghost var done: seq<Handled>, todo := [], all;
    while true
      invariant todo == Serve(svc, turn, state, stream.input) && all == Prefixed(done, todo)
      invariant stream.writes == old(stream.writes) + Replies(done)
      decreases |stream.input|
    {
      var p, rest := TakeTurn(svc, turn, state, stream, todo);
      if p.Stop? {
        assert all.handled == done;
        return p.ending;
      }
      PrefixedCons(done, todo.handled[0], rest);
      done, todo := done + [todo.handled[0]], rest;
      state, turn := p.state, turn + 1;
    }
  }

  ghost function Prefixed(done: seq<Handled>, t: Transcript): Transcript {
    Transcript(done + t.handled, t.ending, t.unread)
  }

  lemma PrefixedCons(done: seq<Handled>, h: Handled, t: Transcript)
    ensures Prefixed(done, Cons(h, t)) == Prefixed(done + [h], t)
    ensures Replies(done + [h]) == Replies(done) + [h.reply]
  {
    assert done + ([h] + t.handled) == (done + [h]) + t.handled;
  }
}
