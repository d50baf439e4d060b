/** From the auth server to the world server (services/world/src/worldserver.rs, `handle_auth_session`): the key agreed
    at login opens the world connection and drives its header encryption. */
module WorldLogin {
  import opened Bytes
  import opened Srp
  import opened SrpAgreement
  import opened HeaderEncryption
  import opened Parsing
  import opened WorldPackets
  import opened WorldFrames
  import opened GameClient

  datatype Refusal = RealmNotFound | AlreadyOnline | NoSuchAccount | SessionExpired | Reject

  datatype Account = Account(id: u32, username: seq<byte>, sessionKey: Option<Bytes40>)

  type Accounts = seq<byte> -> Option<Account>

  /** The digest both sides compute over the session key. */
  function SessionProof(sha: Sha1, username: seq<byte>, challenge: Bytes4, seed: Bytes4, key: Bytes40): Bytes20 {
    sha(username + [0, 0, 0, 0] + challenge + seed + key)
  }

  /** The account that may enter and the key of its header encryption. */
  function HandleAuthSession(sha: Sha1, accounts: Accounts, s: AuthSession, realmId: u32, online: bool, seed: Bytes4)
    : Result<(u32, Bytes40), Refusal>
  {
    if s.fields.realmId != realmId then Err(RealmNotFound)
    else if online then Err(AlreadyOnline)
    else match accounts(s.username)
      case None => Err(NoSuchAccount)
      case Some(account) =>
        if account.sessionKey.None? then Err(SessionExpired)
        else if s.fields.clientProof
                != SessionProof(sha, account.username, s.fields.localChallenge, seed, account.sessionKey.value) then Err(Reject)
        else Ok((account.id, account.sessionKey.value))
  }

  /** Nobody enters without the digest of the account's stored key for this server's seed, and whoever has it does; and each
      refusal has its own cause, in this order. */
  lemma EntryExact(sha: Sha1, accounts: Accounts, s: AuthSession, realmId: u32, online: bool, seed: Bytes4)
    ensures var verdict, found := HandleAuthSession(sha, accounts, s, realmId, online, seed), accounts(s.username);
            if s.fields.realmId != realmId then verdict == Err(RealmNotFound)
            else if online then verdict == Err(AlreadyOnline)
            else if found.None? then verdict == Err(NoSuchAccount)
            else if found.value.sessionKey.None? then verdict == Err(SessionExpired)
            else
              var key := found.value.sessionKey.value;
              if s.fields.clientProof == sha(found.value.username + [0, 0, 0, 0] + s.fields.localChallenge + seed + key)
              then verdict == Ok((found.value.id, key))
              else verdict == Err(Reject)
  {
  }

  /** A login the auth server accepted left it with the client's own key. */
  lemma AcceptedKey(sha: Sha1, client: SrpAgreement.Client, salt: Bytes32, b: Bytes32, server: Server, m2: Bytes20, key: Bytes40)
    requires SetUpFor(sha, client, salt, b, server)
    requires Accept(sha, server, PublicKey(client), ClientM1(sha, client, salt, server.bPub)) == Returned(Ok((m2, key)))
    ensures m2 == ExpectedM2(sha, client, salt, server.bPub) && key == ClientKey(sha, client, salt, server.bPub)
  {
    HonestLogin(sha, client, salt, b, server);
  }

  lemma KeyEnters(sha: Sha1, accounts: Accounts, id: u32, username: seq<byte>, key: Bytes40, s: AuthSession, seed: Bytes4)
    requires accounts(s.username) == Some(Account(id, username, Some(key)))
    requires s.fields.clientProof == sha(username + [0, 0, 0, 0] + s.fields.localChallenge + seed + key)
    ensures HandleAuthSession(sha, accounts, s, s.fields.realmId, false, seed) == Ok((id, key))
  {
    EntryExact(sha, accounts, s, s.fields.realmId, false, seed);
  }

  /** Both ends of a connection under these keys, the client's mirroring the server's. */
  function LinkUnder(hmac: Hmac, key: Bytes40, own: Bytes40): Link<ClientPacket> {
    Link(Party(StreamAt(hmac, ENCRYPT_KEY, key, DROPPED), StreamAt(hmac, DECRYPT_KEY, key, DROPPED)),
         Party(Up(hmac, own), Down(hmac, own)), [], [])
  }

  lemma SameKeyInStep(lib: Library, hmac: Hmac, key: Bytes40, events: seq<Event>)
    requires forall e :: e in events ==> Legal(PacketDecoder(lib), e)
    ensures var link := Run(PacketDecoder(lib), LinkUnder(hmac, key, key), events);
            link.clientGot == Sent(events) && DecodeFrames(PacketDecoder(lib), Frames(events)) == Decoded(link.serverGot)
  {
    SameStreams(hmac, key);
    AlwaysInStep(PacketDecoder(lib), StreamAt(hmac, ENCRYPT_KEY, key, DROPPED), StreamAt(hmac, DECRYPT_KEY, key, DROPPED), events);
  }

  /** A client whose login the auth server accepted, and whose key is the one stored for its account, enters the world
      with the key it derived itself; and over any interleaving of traffic after that, each end recovers exactly what
      the other sent. */
  lemma LoginOpensTheWorld(sha: Sha1, hmac: Hmac, lib: Library, client: SrpAgreement.Client, salt: Bytes32, b: Bytes32,
                           server: Server, m2: Bytes20, key: Bytes40, accounts: Accounts, id: u32, s: AuthSession,
                           seed: Bytes4, own: Bytes40, events: seq<Event>)
    requires SetUpFor(sha, client, salt, b, server) && own == ClientKey(sha, client, salt, server.bPub)
    requires Accept(sha, server, PublicKey(client), ClientM1(sha, client, salt, server.bPub)) == Returned(Ok((m2, key)))
    requires accounts(s.username) == Some(Account(id, client.username, Some(key)))
    requires s.fields.clientProof == sha(client.username + [0, 0, 0, 0] + s.fields.localChallenge + seed + own)
    requires forall e :: e in events ==> Legal(PacketDecoder(lib), e)
    ensures m2 == ExpectedM2(sha, client, salt, server.bPub)
    ensures HandleAuthSession(sha, accounts, s, s.fields.realmId, false, seed) == Ok((id, own))
    ensures var link := Run(PacketDecoder(lib), LinkUnder(hmac, key, own), events);
            link.clientGot == Sent(events) && DecodeFrames(PacketDecoder(lib), Frames(events)) == Decoded(link.serverGot)
  {
    AcceptedKey(sha, client, salt, b, server, m2, key);
    KeyEnters(sha, accounts, id, client.username, own, s, seed);
    SameKeyInStep(lib, hmac, own, events);
  }

  // ---- a whole connection, from the bytes of its reads ----

  /** What a connection comes to before and after there is a session. */
  datatype Visit =
    | TurnedAway
    | Crashed
    | Entered(account: u32, key: Bytes40, addons: seq<Addon>, packets: seq<ClientPacket>, aborted: bool)

  /** The packets of the reads that follow, up to the first read that fails. */
  function PacketsIn(lib: Library, cipher: Cursor, raws: seq<seq<byte>>): seq<ClientPacket>
    decreases |raws|
  {
    if raws == [] || raws[0] == [] then []
    else
      var r := FramesFrom(PacketDecoder(lib), Some(cipher), raws[0]);
      if r.packets.Decoded? && r.cipher.Some? then r.packets.value + PacketsIn(lib, r.cipher.value, raws[1..]) else []
  }

  /** Whether the first of these reads that fails makes the server panic. */
  predicate AbortsIn(lib: Library, cipher: Cursor, raws: seq<seq<byte>>)
    decreases |raws|
  {
    raws != [] && raws[0] != [] &&
      var r := FramesFrom(PacketDecoder(lib), Some(cipher), raws[0]);
      r.packets.Abort? || (r.packets.Decoded? && r.cipher.Some? && AbortsIn(lib, r.cipher.value, raws[1..]))
  }

  /** `raws` is what the reads deliver; the first one is in the clear and must open with an auth session. */
  function VisitOf(lib: Library, sha: Sha1, hmac: Hmac, accounts: Accounts, realmId: u32, seed: Bytes4, raws: seq<seq<byte>>): Visit {
    if raws == [] || raws[0] == [] then TurnedAway
    else match FramesFrom(PacketDecoder(lib), None, raws[0]).packets
      case Invalid => TurnedAway
      case Abort => Crashed
      case Decoded(packets) => Admit(lib, sha, hmac, accounts, realmId, seed, packets, raws[1..])
  }

  function Admit(lib: Library, sha: Sha1, hmac: Hmac, accounts: Accounts, realmId: u32, seed: Bytes4, packets: seq<ClientPacket>,
                 raws: seq<seq<byte>>): Visit
  {
    if packets == [] || !packets[0].AuthSessionPacket? then TurnedAway
    else match HandleAuthSession(sha, accounts, packets[0].session, realmId, false, seed)
      case Err(_) => TurnedAway
      case Ok((account, key)) =>
        var up := StreamAt(hmac, DECRYPT_KEY, key, DROPPED);
        Entered(account, key, packets[0].session.addons, packets[1..] + PacketsIn(lib, up, raws), AbortsIn(lib, up, raws))
  }

  /** What a client sends batch by batch, its keystream moving six bytes per header. */
  function EncodeBatches(cipher: Cursor, batches: seq<seq<Frame>>): seq<seq<byte>>
    requires forall i :: 0 <= i < |batches| ==> AllSendable(batches[i])
    decreases |batches|
  {
    if batches == [] then []
    else [EncodeFrames(Some(cipher), batches[0])] + EncodeBatches(cipher.Skip(6 * |batches[0]|), batches[1..])
  }

  function Joined(batches: seq<seq<Frame>>): seq<Frame> {
    if batches == [] then [] else batches[0] + Joined(batches[1..])
  }

  /** A batch of frames a server can make sense of. */
  predicate Readable(lib: Library, batch: seq<Frame>) {
    && batch != [] && (forall f :: f in batch ==> lib.known(f.opcode))
    && DecodeFrames(PacketDecoder(lib), batch).Decoded?
  }

  lemma BatchRead(lib: Library, cipher: Cursor, batch: seq<Frame>, raw: seq<byte>)
    requires AllSendable(batch) && Readable(lib, batch) && raw == EncodeFrames(Some(cipher), batch)
    ensures raw != []
    ensures FramesFrom(PacketDecoder(lib), Some(cipher), raw)
            == ReadResult(DecodeFrames(PacketDecoder(lib), batch), Some(cipher.Skip(6 * |batch|)))
  {
    FramesRoundTrip(PacketDecoder(lib), Some(cipher), batch, raw);
    AllHeadersRead(PacketDecoder(lib), batch);
    assert |raw| >= |EncodeFrame(Some(cipher), batch[0])| >= 6;
  }

  /** Every frame an honest client encrypts comes out as its packet, in order, across all reads. */
  lemma {:induction false} BatchesRead(lib: Library, cipher: Cursor, batches: seq<seq<Frame>>, raws: seq<seq<byte>>)
    requires forall i :: 0 <= i < |batches| ==> AllSendable(batches[i]) && Readable(lib, batches[i])
    requires raws == EncodeBatches(cipher, batches)
    ensures DecodeFrames(PacketDecoder(lib), Joined(batches)) == Decoded(PacketsIn(lib, cipher, raws)) && !AbortsIn(lib, cipher, raws)
    decreases |batches|
  {
    if batches != [] {
      BatchRead(lib, cipher, batches[0], raws[0]);
      BatchesRead(lib, cipher.Skip(6 * |batches[0]|), batches[1..], raws[1..]);
      DecodeFramesAppend(PacketDecoder(lib), batches[0], Joined(batches[1..]));
    }
  }

  /** The batches of frames for batches of commands. */
  function AllFrames(lib: Library, batches: seq<seq<Command>>): (frames: seq<seq<Frame>>)
    requires forall i :: 0 <= i < |batches| ==> AllSpeakable(lib, batches[i])
    ensures |frames| == |batches| && forall i :: 0 <= i < |frames| ==> frames[i] == FramesOf(lib, batches[i])
  {
    seq(|batches|, i requires 0 <= i < |batches| => FramesOf(lib, batches[i]))
  }

  /** Everything said, as the server understands it. */
  function Spoken(batches: seq<seq<Command>>): seq<ClientPacket> {
    if batches == [] then [] else PacketsOf(batches[0]) + Spoken(batches[1..])
  }

  lemma {:induction false} SpokenRead(lib: Library, batches: seq<seq<Command>>)
    requires forall i :: 0 <= i < |batches| ==> AllSpeakable(lib, batches[i])
    ensures DecodeFrames(PacketDecoder(lib), Joined(AllFrames(lib, batches))) == Decoded(Spoken(batches))
    decreases |batches|
  {
    if batches != [] {
      SpokenRead(lib, batches[1..]);
      CommandsRead(lib, batches[0]);
      assert AllFrames(lib, batches)[1..] == AllFrames(lib, batches[1..]);
      DecodeFramesAppend(PacketDecoder(lib), FramesOf(lib, batches[0]), Joined(AllFrames(lib, batches[1..])));
    }
  }

  /** A client that says something in every batch. */
  predicate Talks(lib: Library, batches: seq<seq<Command>>) {
    forall i :: 0 <= i < |batches| ==> batches[i] != [] && AllSpeakable(lib, batches[i])
  }

  lemma TalkRead(lib: Library, cipher: Cursor, batches: seq<seq<Command>>, raws: seq<seq<byte>>)
    requires Talks(lib, batches) && raws == EncodeBatches(cipher, AllFrames(lib, batches))
    ensures PacketsIn(lib, cipher, raws) == Spoken(batches) && !AbortsIn(lib, cipher, raws)
  {
    var frames := AllFrames(lib, batches);
    forall i | 0 <= i < |frames|
      ensures AllSendable(frames[i]) && Readable(lib, frames[i])
    {
      CommandsRead(lib, batches[i]);
    }
    BatchesRead(lib, cipher, frames, raws);
    SpokenRead(lib, batches);
  }

  lemma AdmitHonest(lib: Library, sha: Sha1, hmac: Hmac, accounts: Accounts, realmId: u32, seed: Bytes4, id: u32, name: seq<byte>,
                    own: Bytes40, session: AuthSession, raws: seq<seq<byte>>)
    requires accounts(session.username) == Some(Account(id, name, Some(own))) && session.fields.realmId == realmId
    requires session.fields.clientProof == sha(name + [0, 0, 0, 0] + session.fields.localChallenge + seed + own)
    ensures Admit(lib, sha, hmac, accounts, realmId, seed, [AuthSessionPacket(session)], raws)
            == Entered(id, own, session.addons, PacketsIn(lib, Up(hmac, own), raws), AbortsIn(lib, Up(hmac, own), raws))
  {
    SameStreams(hmac, own);
    KeyEnters(sha, accounts, id, name, own, session, seed);
    var packets := [AuthSessionPacket(session)];
    assert packets[1..] + PacketsIn(lib, Up(hmac, own), raws) == PacketsIn(lib, Up(hmac, own), raws);
  }

  /** A whole visit: a client that opens with the account and digest of its key and then says anything in any batches of
      encrypted frames enters with that key, and exactly what it said is what the server reads, in order. */
  lemma HonestVisit(lib: Library, sha: Sha1, hmac: Hmac, accounts: Accounts, realmId: u32, seed: Bytes4, id: u32, name: seq<byte>,
                    own: Bytes40, o: Opening, batches: seq<seq<Command>>, first: seq<byte>, raws: seq<seq<byte>>)
    requires accounts(o.username) == Some(Account(id, name, Some(own))) && o.fields.realmId == realmId
    requires o.fields.clientProof == sha(name + [0, 0, 0, 0] + o.fields.localChallenge + seed + own)
    requires Presentable(lib, o) && first == EncodeFrames(None, [OpeningFrame(o)])
    requires Talks(lib, batches) && raws == EncodeBatches(Up(hmac, own), AllFrames(lib, batches))
    ensures VisitOf(lib, sha, hmac, accounts, realmId, seed, [first] + raws)
            == Entered(id, own, ReceivedAll(o.addons), Spoken(batches), false)
  {
    OpeningRead(lib, o, first);
    assert ([first] + raws)[1..] == raws;
    AdmitHonest(lib, sha, hmac, accounts, realmId, seed, id, name, own, SessionOf(o), raws);
    TalkRead(lib, Up(hmac, own), batches, raws);
  }

  // ---- everybody else ----

  /** Whoever enters opened with exactly the digest of the key stored for the account it names; a first read that breaks the
      parser is the only one to panic; anyone else is turned away. */
  lemma WhoEnters(lib: Library, sha: Sha1, hmac: Hmac, accounts: Accounts, realmId: u32, seed: Bytes4, first: seq<byte>,
                  raws: seq<seq<byte>>)
    requires first != []
    ensures var visit, read := VisitOf(lib, sha, hmac, accounts, realmId, seed, [first] + raws),
                               FramesFrom(PacketDecoder(lib), None, first).packets;
            && (visit.Crashed? <==> read.Abort?)
            && (visit.Entered? <==>
                  && read.Decoded? && read.value != [] && read.value[0].AuthSessionPacket?
                  && HandleAuthSession(sha, accounts, read.value[0].session, realmId, false, seed).Ok?)
            && (visit.Entered? ==>
                  var s := read.value[0].session;
                  && s.fields.realmId == realmId && accounts(s.username).Some?
                  && var found := accounts(s.username).value;
                     && found.id == visit.account && found.sessionKey == Some(visit.key) && visit.addons == s.addons
                     && s.fields.clientProof == sha(found.username + [0, 0, 0, 0] + s.fields.localChallenge + seed + visit.key)
                     && visit.packets == read.value[1..] + PacketsIn(lib, Up(hmac, visit.key), raws)
                     && (visit.aborted <==> AbortsIn(lib, Up(hmac, visit.key), raws)))
  {
    var read := FramesFrom(PacketDecoder(lib), None, first).packets;
    assert ([first] + raws)[1..] == raws;
    if read.Decoded? && read.value != [] && read.value[0].AuthSessionPacket? {
      var s := read.value[0].session;
      EntryExact(sha, accounts, s, realmId, false, seed);
      if accounts(s.username).Some? && accounts(s.username).value.sessionKey.Some? {
        SameStreams(hmac, accounts(s.username).value.sessionKey.value);
      }
    }
  }

  lemma NothingRead(lib: Library, sha: Sha1, hmac: Hmac, accounts: Accounts, realmId: u32, seed: Bytes4, raws: seq<seq<byte>>)
    requires raws == [] || raws[0] == []
    ensures VisitOf(lib, sha, hmac, accounts, realmId, seed, raws) == TurnedAway
  {
  }

  /** One good read in front of others. */
  lemma OneRead(lib: Library, cipher: Cursor, batch: seq<Frame>, raws: seq<seq<byte>>)
    requires raws != [] && AllSendable(batch) && Readable(lib, batch) && raws[0] == EncodeFrames(Some(cipher), batch)
    ensures var next := cipher.Skip(6 * |batch|);
            && PacketsIn(lib, cipher, raws) == DecodeFrames(PacketDecoder(lib), batch).value + PacketsIn(lib, next, raws[1..])
            && AbortsIn(lib, cipher, raws) == AbortsIn(lib, next, raws[1..])
  {
    BatchRead(lib, cipher, batch, raws[0]);
  }

  /** What follows an empty read or one that cannot be decoded is lost. */
  lemma {:induction false} ReadsStop(lib: Library, cipher: Cursor, frames: seq<seq<Frame>>, at: Cursor, bad: seq<byte>,
                                     later: seq<seq<byte>>, raws: seq<seq<byte>>)
    requires forall i :: 0 <= i < |frames| ==> AllSendable(frames[i]) && Readable(lib, frames[i])
    requires at == cipher.Skip(6 * |Joined(frames)|) && raws == EncodeBatches(cipher, frames) + ([bad] + later)
    requires bad == [] || !FramesFrom(PacketDecoder(lib), Some(at), bad).packets.Decoded?
    ensures DecodeFrames(PacketDecoder(lib), Joined(frames)) == Decoded(PacketsIn(lib, cipher, raws))
    ensures AbortsIn(lib, cipher, raws) <==> bad != [] && FramesFrom(PacketDecoder(lib), Some(at), bad).packets.Abort?
    decreases |frames|
  {
    if frames == [] {
      assert raws == [bad] + later && raws[0] == bad && at == cipher;
    } else {
      var next := cipher.Skip(6 * |frames[0]|);
      SameRest(raws, EncodeBatches(cipher, frames), [bad] + later);
      OneRead(lib, cipher, frames[0], raws);
      ReadsStop(lib, next, frames[1..], at, bad, later, raws[1..]);
      DecodeFramesAppend(PacketDecoder(lib), frames[0], Joined(frames[1..]));
    }
  }

  lemma SameRest<T>(whole: seq<T>, front: seq<T>, back: seq<T>)
    requires front != [] && whole == front + back
    ensures whole[0] == front[0] && whole[1..] == front[1..] + back
  {
  }
}
