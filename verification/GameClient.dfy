/** A game client of version 3.3.5, written from the protocol alone: what it puts into its frames, which keys it uses, and
    what it makes of the messages it gets. Its opcodes, keys and codes are its own. */
module GameClient {
  import opened Bytes
  import opened Parsing
  import opened HeaderEncryption
  import opened WorldPackets
  import opened WorldFrames
  import opened CharacterList
  import opened WorldHandler
  import Characters

  /** The keys of the two directions: from the server, and to it. */
  const DOWN_KEY: Bytes16 :=
    [0xCC, 0x98, 0xAE, 0x04, 0xE8, 0x97, 0xEA, 0xCA, 0x12, 0xDD, 0xC0, 0x93, 0x42, 0x91, 0x53, 0x57]
  const UP_KEY: Bytes16 :=
    [0xC2, 0xB3, 0x72, 0x3C, 0xC6, 0xAE, 0xD9, 0xB5, 0x34, 0x3C, 0x53, 0xEE, 0x2F, 0x43, 0x67, 0xCE]

  /** Where the client starts reading and writing: 1024 bytes into each stream. */
  function Down(hmac: Hmac, key: Bytes40): Cursor {
    Cursor(KeystreamOf(NewRc4(hmac(DOWN_KEY, key))), 1024)
  }

  function Up(hmac: Hmac, key: Bytes40): Cursor {
    Cursor(KeystreamOf(NewRc4(hmac(UP_KEY, key))), 1024)
  }

  /** The server writes with the one and reads with the other. */
  lemma SameStreams(hmac: Hmac, key: Bytes40)
    ensures StreamAt(hmac, ENCRYPT_KEY, key, DROPPED) == Down(hmac, key)
    ensures StreamAt(hmac, DECRYPT_KEY, key, DROPPED) == Up(hmac, key)
  {
  }

  // ---- what it sends ----

  /** A packet on its way, with the bytes nobody reads: the upper half of the opcode, the outfit of a new character, and
      the body of a request that needs none. */
  datatype Command = Command(packet: ClientPacket, padding: u16, outfit: byte, filler: seq<byte>)

  function Opcode(p: ClientPacket): u16 {
    match p
    case AuthSessionPacket(_) => 0x1ED
    case Ping(_, _) => 0x1DC
    case ReadyForAccountDataTimes => 0x4FF
    case CharEnum => 0x037
    case RealmSplit(_) => 0x38C
    case CharacterCreate(_, _) => 0x036
    case PlayerLogin(_) => 0x03D
    case CharacterDelete(_) => 0x038
  }

  /** Everything but the opening, which `EncodeAuthSession` lays out. */
  function Body(c: Command): seq<byte>
    requires !c.packet.AuthSessionPacket?
  {
    match c.packet
    case Ping(sequence, latency) => PadLe(sequence, 4) + PadLe(latency, 4)
    case CharacterCreate(name, looks) => name + [0] + looks + [c.outfit]
    case PlayerLogin(id) => PadLe(id, 8)
    case CharacterDelete(id) => PadLe(id, 8)
    case _ => c.filler
  }

  function FrameOf(c: Command): Frame
    requires !c.packet.AuthSessionPacket?
  {
    Frame(Opcode(c.packet), c.padding, Body(c))
  }

  /** A command that fits a frame, for a server that knows its opcode. */
  predicate Speakable(lib: Library, c: Command) {
    && !c.packet.AuthSessionPacket? && lib.known(Opcode(c.packet)) && |Body(c)| + 4 < 0x1_0000
    && (c.packet.CharacterCreate? ==> Nameable(lib, c.packet.name))
  }

  predicate AllSpeakable(lib: Library, commands: seq<Command>) {
    forall i :: 0 <= i < |commands| ==> Speakable(lib, commands[i])
  }

  /** What the server makes of it: it does not look at the realm of a split request. */
  function Understood(p: ClientPacket): ClientPacket {
    if p.RealmSplit? then RealmSplit(1) else p
  }

  function FramesOf(lib: Library, commands: seq<Command>): (frames: seq<Frame>)
    requires AllSpeakable(lib, commands)
    ensures |frames| == |commands| && AllSendable(frames) && forall f :: f in frames ==> lib.known(f.opcode)
  {
    seq(|commands|, i requires 0 <= i < |commands| => FrameOf(commands[i]))
  }

  function PacketsOf(commands: seq<Command>): seq<ClientPacket> {
    seq(|commands|, i requires 0 <= i < |commands| => Understood(commands[i].packet))
  }

  lemma NamedBody(name: seq<byte>, looks: Bytes8, outfit: byte, bytes: seq<byte>)
    requires NulFree(name) && bytes == name + [0] + looks + [outfit]
    ensures FirstNul(bytes, 0) == Some(|name|) && |bytes| == |name| + 10
    ensures bytes[..|name|] == name && bytes[|name| + 1..|name| + 9] == looks
  {
    assert bytes[..|name|] == name && bytes[0..|name|] == name && bytes[|name|] == 0;
    assert bytes[|name| + 1..|name| + 9] == looks;
    TextThenNul(bytes, 0, |name|, name);
  }

  /** Every packet arrives as itself, field by field. */
  lemma CommandRead(lib: Library, c: Command)
    requires Speakable(lib, c)
    ensures PacketOf(lib, Opcode(c.packet), Body(c)) == Decoded(Understood(c.packet))
  {
    match c.packet {
      case Ping(sequence, latency) =>
        PutGet(sequence);
        PutGet(latency);
        assert Body(c)[..4] == PadLe(sequence, 4) && Body(c)[4..] == PadLe(latency, 4);
      case CharacterCreate(name, looks) => NamedBody(name, looks, c.outfit, Body(c));
      case PlayerLogin(id) => PutGet(id);
      case CharacterDelete(id) => PutGet(id);
      case _ =>
    }
  }

  lemma FirstCommand(lib: Library, commands: seq<Command>)
    requires AllSpeakable(lib, commands) && commands != []
    ensures FramesOf(lib, commands)[0] == FrameOf(commands[0]) && FramesOf(lib, commands)[1..] == FramesOf(lib, commands[1..])
    ensures PacketsOf(commands) == [Understood(commands[0].packet)] + PacketsOf(commands[1..])
    ensures PacketDecoder(lib).decode(Opcode(commands[0].packet), Body(commands[0]))
            == PacketOf(lib, Opcode(commands[0].packet), Body(commands[0]))
  {
    assert FramesOf(lib, commands)[1..] == FramesOf(lib, commands[1..]);
    assert PacketsOf(commands) == [Understood(commands[0].packet)] + PacketsOf(commands[1..]);
  }

  lemma {:induction false} CommandsRead(lib: Library, commands: seq<Command>)
    requires AllSpeakable(lib, commands)
    ensures DecodeFrames(PacketDecoder(lib), FramesOf(lib, commands)) == Decoded(PacketsOf(commands))
    decreases |commands|
  {
    if commands == [] {
      assert PacketsOf(commands) == [];
    } else {
      CommandRead(lib, commands[0]);
      CommandsRead(lib, commands[1..]);
      FirstCommand(lib, commands);
    }
  }

  /** Bodies of the wrong length, names without an end or not in UTF-8, and opcodes nobody handles are errors; the nine
      opcodes still to be written, and an opening that breaks the parser, are the only ones to panic. */
  lemma OtherwiseRefused(lib: Library, opcode: u16, bytes: seq<byte>)
    ensures opcode in {0x1DC, 0x03D, 0x038} && |bytes| != 8 ==> PacketOf(lib, opcode, bytes) == Invalid
    ensures opcode == 0x036 && NulFree(bytes) ==> PacketOf(lib, opcode, bytes) == Invalid
    ensures opcode !in {0x1ED, 0x1DC, 0x4FF, 0x037, 0x38C, 0x036, 0x03D, 0x038,
                        0x050, 0x1CC, 0x1CE, 0x1F4, 0x20A, 0x20B, 0x2BF, 0x3D3, 0x4F6} ==>
              PacketOf(lib, opcode, bytes) == Invalid
    ensures opcode != 0x1ED ==>
              (PacketOf(lib, opcode, bytes) == Abort
               <==> opcode in {0x050, 0x1CC, 0x1CE, 0x1F4, 0x20A, 0x20B, 0x2BF, 0x3D3, 0x4F6})
  {
  }

  lemma NewcomerRefused(lib: Library, name: seq<byte>, rest: seq<byte>, bytes: seq<byte>)
    requires NulFree(name) && bytes == name + [0] + rest && (|rest| != 9 || !lib.utf8(name))
    ensures PacketOf(lib, 0x036, bytes) == Invalid
  {
    assert bytes[0..|name|] == name && bytes[..|name|] == name && bytes[|name|] == 0;
    TextThenNul(bytes, 0, |name|, name);
  }

  // ---- how it opens a connection ----

  /** The opening, with the zipped list of its addons. */
  datatype Opening = Opening(build: u32, serverId: u32, username: seq<byte>, fields: SessionFields, addons: seq<SentAddon>,
                             zipped: seq<byte>, padding: u16)

  function OpeningFrame(o: Opening): Frame {
    Frame(0x1ED, o.padding, EncodeAuthSession(o.build, o.serverId, o.username, o.fields, |EncodeBlock(o.addons)|, o.zipped))
  }

  /** Names are text, the list unzips to itself, and everything fits its length field. */
  predicate Presentable(lib: Library, o: Opening) {
    && lib.known(0x1ED) && Sendable(OpeningFrame(o))
    && Nameable(lib, o.username) && (forall i :: 0 <= i < |o.addons| ==> Nameable(lib, o.addons[i].name))
    && |o.addons| < 0x1_0000_0000 && |EncodeBlock(o.addons)| < 0x1_0000_0000 && lib.inflate(o.zipped) == Some(EncodeBlock(o.addons))
  }

  function SessionOf(o: Opening): AuthSession {
    AuthSession(o.build, o.serverId, o.username, o.fields, ReceivedAll(o.addons))
  }

  /** The opening arrives field by field, addons included. */
  lemma OpeningRead(lib: Library, o: Opening, raw: seq<byte>)
    requires Presentable(lib, o) && raw == EncodeFrames(None, [OpeningFrame(o)])
    ensures raw != [] && FramesFrom(PacketDecoder(lib), None, raw).packets == Decoded([AuthSessionPacket(SessionOf(o))])
  {
    var frame, packet := OpeningFrame(o), AuthSessionPacket(SessionOf(o));
    AuthSessionRoundTrip(lib, o.build, o.serverId, o.username, o.fields, o.addons, o.zipped);
    FramesRoundTrip(PacketDecoder(lib), None, [frame], raw);
    assert |raw| >= |EncodeFrame(None, frame)| >= 6;
    assert DecodeFrames(PacketDecoder(lib), [frame][1..]) == Decoded([]);
    assert PacketDecoder(lib).decode(frame.opcode, frame.body) == Decoded(packet);
    assert [packet] + [] == [packet];
  }

  // ---- what it hears ----

  datatype Heard =
    | Admitted(expansion: byte)
    | AddonAnswers(standard: seq<bool>)
    | CacheVersion(version: u32)
    | Tutorials(seen: seq<byte>)
    | Pong(sequence: u32)
    | Times(clock: u32, mask: u32, config: u32, bindings: u32, macros: u32)
    | List(rows: seq<Characters.Listed>)
    | Split(realm: u32, state: u32, date: seq<byte>)
    | CreateCode(code: byte)
    | DeleteCode(code: byte)

  /** One answer of eight bytes for each addon, then a zero. */
  function AddonFlags(body: seq<byte>): Option<seq<bool>> {
    if body == [0] then Some([])
    else if |body| < 8 || body[..2] != [2, 1] || body[2] > 1 || body[3..8] != [0, 0, 0, 0, 0] then None
    else match AddonFlags(body[8..])
      case None => None
      case Some(rest) => Some([body[2] == 0] + rest)
  }

  function Hear(m: Message): Option<Heard> {
    var b := m.body;
    if m.opcode == 0x1EE then
      if |b| == 11 && b[..10] == [12, 0, 0, 0, 0, 0, 0, 0, 0, 0] then Some(Admitted(b[10])) else None
    else if m.opcode == 0x2EF then
      match AddonFlags(b) case Some(flags) => Some(AddonAnswers(flags)) case None => None
    else if m.opcode == 0x4AB then if |b| == 4 then Some(CacheVersion(GetU32(b))) else None
    else if m.opcode == 0x0FD then if |b| == 32 then Some(Tutorials(b)) else None
    else if m.opcode == 0x1DD then if |b| == 4 then Some(Pong(GetU32(b))) else None
    else if m.opcode == 0x209 then
      if |b| == 21 && b[4] == 0
      then Some(Times(GetU32(b[..4]), GetU32(b[5..9]), GetU32(b[9..13]), GetU32(b[13..17]), GetU32(b[17..21]))) else None
    else if m.opcode == 0x03B then
      match ReadList(b) case Some(rows) => Some(List(rows)) case None => None
    else if m.opcode == 0x38B then
      if |b| == 17 && b[16] == 0 then Some(Split(GetU32(b[..4]), GetU32(b[4..8]), b[8..16])) else None
    else if m.opcode == 0x03A then if |b| == 1 then Some(CreateCode(b[0])) else None
    else if m.opcode == 0x03C then if |b| == 1 then Some(DeleteCode(b[0])) else None
    else None
  }

  function HearAll(messages: seq<Message>): seq<Option<Heard>> {
    seq(|messages|, i requires 0 <= i < |messages| => Hear(messages[i]))
  }

  /** Whether an addon is the one the server takes for granted. */
  function Standard(addons: seq<Addon>): seq<bool> {
    seq(|addons|, i requires 0 <= i < |addons| => addons[i].crc == 0x4C1C776D)
  }

  lemma {:induction false} AddonsHeard(addons: seq<Addon>)
    ensures AddonFlags(AddonInfo(addons)) == Some(Standard(addons))
  {
    if addons == [] {
      assert Standard(addons) == [];
    } else {
      AddonsHeard(addons[1..]);
      var body := AddonInfo(addons);
      assert |body| == 8 * |addons| + 1 && body != [0];
      assert body[8..] == AddonInfo(addons[1..]) && body[..2] == [2, 1] && body[3..8] == [0, 0, 0, 0, 0];
      assert Standard(addons) == [addons[0].crc == 0x4C1C776D] + Standard(addons[1..]);
    }
  }

  lemma Zeros(n: nat)
    ensures PadLe(0, n) == seq(n, _ => 0)
  {
    if n > 0 {
      Zeros(n - 1);
      assert PadLe(0, n) == [0] + PadLe(0, n - 1);
    }
  }

  lemma TwelveBytes()
    ensures PadLe(12, 4) == [12, 0, 0, 0] && PadLe(0, 4) == [0, 0, 0, 0]
  {
    Zeros(4);
    Zeros(3);
    assert PadLe(12, 4) == [12] + PadLe(0, 3);
  }

  lemma WelcomeHeard(m: Message)
    requires m == Message(SMSG_AUTH_RESPONSE, PadLe(AUTH_OK, 4) + PadLe(0, 4) + [0, 0, WOTLK])
    ensures Hear(m) == Some(Admitted(2))
  {
    TwelveBytes();
    assert m.body == [12, 0, 0, 0, 0, 0, 0, 0, 0, 0, 2];
    assert m.body[..10] == [12, 0, 0, 0, 0, 0, 0, 0, 0, 0] && m.body[10] == 2;
  }

  lemma InfoHeard(addons: seq<Addon>, m: Message)
    requires m == Message(SMSG_ADDON_INFO, AddonInfo(addons))
    ensures Hear(m) == Some(AddonAnswers(Standard(addons)))
  {
    AddonsHeard(addons);
  }

  lemma CacheHeard(cache: Message, tutorials: Message)
    requires cache == Message(SMSG_CLIENTCACHE_VERSION, PadLe(0, 4)) && tutorials == Message(SMSG_TUTORIAL_FLAGS, PadLe(0, 32))
    ensures Hear(cache) == Some(CacheVersion(0)) && Hear(tutorials) == Some(Tutorials(seq(32, _ => 0)))
  {
    PutGet(0);
    Zeros(32);
  }

  lemma HearFour(a: Message, b: Message, c: Message, d: Message)
    ensures HearAll([a, b, c, d]) == [Hear(a), Hear(b), Hear(c), Hear(d)]
  {
  }

  /** The four greetings: admitted to the second expansion, one answer for each addon, no cache to throw away, and every
      tutorial still to be shown. */
  lemma GreetingHeard(addons: seq<Addon>, g: seq<Message>)
    requires g == Greeting(addons)
    ensures HearAll(g)
            == [Some(Admitted(2)), Some(AddonAnswers(Standard(addons))), Some(CacheVersion(0)), Some(Tutorials(seq(32, _ => 0)))]
  {
    WelcomeHeard(g[0]);
    InfoHeard(addons, g[1]);
    CacheHeard(g[2], g[3]);
    HearFour(g[0], g[1], g[2], g[3]);
  }

  // ---- what it hears in answer to its packets ----

  lemma TimesHeard(clock: u32, times: DataTimes, m: Message)
    requires m == Message(SMSG_ACCOUNT_DATA_TIMES, TimesBody(clock, times))
    ensures Hear(m) == Some(Times(clock, 0x15, times.config, times.bindings, times.macros))
  {
    var b := m.body;
    assert b[..4] == PadLe(clock, 4) && b[4] == 0 && b[5..9] == PadLe(0x15, 4);
    assert b[9..13] == PadLe(times.config, 4) && b[13..17] == PadLe(times.bindings, 4) && b[17..21] == PadLe(times.macros, 4);
    PutGet(clock);
    PutGet(0x15);
    PutGet(times.config);
    PutGet(times.bindings);
    PutGet(times.macros);
  }

  lemma SplitHeard(realm: u32, m: Message)
    requires m == Message(SMSG_REALM_SPLIT, PadLe(realm, 4) + PadLe(0, 4) + SPLIT_DATE)
    ensures Hear(m) == Some(Split(realm, 0, [0x30, 0x31, 0x2F, 0x30, 0x31, 0x2F, 0x30, 0x31]))
  {
    var b := m.body;
    assert b[..4] == PadLe(realm, 4) && b[4..8] == PadLe(0, 4) && b[8..16] == [0x30, 0x31, 0x2F, 0x30, 0x31, 0x2F, 0x30, 0x31];
    PutGet(realm);
    PutGet(0);
  }

  lemma ListHeard(rows: seq<Characters.Listed>, m: Message)
    requires m == Message(SMSG_CHAR_ENUM, ListBody(rows)) && forall row :: row in rows ==> NulFree(row.character.name)
    ensures Hear(m) == Some(List(AllShown(rows))) <==> |rows| <= 255
  {
    ListRoundTrip(rows, m.body);
  }

  /** What a creation is answered with, if anything. */
  function CreationCode(account: Option<u32>, t: Characters.Table, name: seq<byte>, db: Characters.Answers): Option<byte> {
    if !db.answered || (exists id :: id in t && t[id].name == name) then Some(50)
    else if !WellSpelt(name) then Some(88)
    else if |name| == 0 then Some(89)
    else if |name| == 1 then Some(90)
    else if account.Some? && db.accepted && db.low !in t then Some(47)
    else None
  }

  /** No capital letter but the first, and that a capital if it is an ASCII letter by itself. */
  predicate WellSpelt(name: seq<byte>) {
    && (forall i :: 1 <= i < |name| ==> !('A' as int <= name[i] <= 'Z' as int))
    && (|name| >= 1 ==>
          if |name| == 1 || !(0x80 <= name[1] < 0xC0) then !('a' as int <= name[0] <= 'z' as int)
          else !('A' as int <= name[0] <= 'Z' as int))
  }

  lemma SpellingExact(name: seq<byte>)
    ensures Characters.Proper(name) == name <==> WellSpelt(name)
  {
    var proper := Characters.Proper(name);
    if WellSpelt(name) {
      forall i | 0 <= i < |name|
        ensures proper[i] == name[i]
      {
      }
    }
  }

  lemma CreationHeard(account: Option<u32>, t: Characters.Table, name: seq<byte>, looks: Bytes8, backend: Backend)
    ensures var reply, code := ReplyTo(account, t, CharacterCreate(name, looks), backend), CreationCode(account, t, name, backend.db);
            if code.Some? then reply.Some? && Hear(reply.value) == Some(CreateCode(code.value)) else reply.None?
  {
    SpellingExact(name);
  }

  /** A confirmed creation, and no other, stores a character of level one in the starting place; nothing else happens. */
  lemma CreationStores(account: Option<u32>, t: Characters.Table, name: seq<byte>, looks: Bytes8, backend: Backend)
    ensures TableAfter(account, t, CharacterCreate(name, looks), backend)
            == if CreationCode(account, t, name, backend.db) == Some(47)
               then t[backend.db.low := Characters.Character(account.value, name, looks, 1,
                                                             [1, 0, 0, 0, 0, 0, 0, 0, 0, 0, 0, 0, 75, 1, 0, 0, 126, 1, 0, 0])]
               else t
  {
    SpellingExact(name);
  }

  lemma DeletionHeard(account: Option<u32>, t: Characters.Table, id: u64, backend: Backend)
    ensures var reply := ReplyTo(account, t, CharacterDelete(id), backend);
            if id >= 0x1_0000_0000_0000 then reply.None?
            else reply.Some? && Hear(reply.value) == Some(DeleteCode(if backend.deletes then 71 else 72))
    ensures TableAfter(account, t, CharacterDelete(id), backend)
            == if id < 0x1_0000_0000_0000 && backend.deletes then t - {id} else t
  {
  }

  /** What every other packet is answered with; none of them changes the table. */
  lemma AnswerHeard(account: Option<u32>, t: Characters.Table, packet: ClientPacket, backend: Backend)
    ensures var reply := ReplyTo(account, t, packet, backend);
            match packet
            case Ping(sequence, _) => reply.Some? && Hear(reply.value) == Some(Pong(sequence))
            case RealmSplit(realm) =>
              reply.Some? && Hear(reply.value) == Some(Split(realm, 0, [0x30, 0x31, 0x2F, 0x30, 0x31, 0x2F, 0x30, 0x31]))
            case ReadyForAccountDataTimes =>
              if backend.clock.None? || (account.Some? && backend.times.None?) then reply.None?
              else
                var times := if account.Some? then backend.times.value else WorldHandler.DataTimes(0, 0, 0);
                && reply.Some?
                && Hear(reply.value) == Some(Times(backend.clock.value, 0x15, times.config, times.bindings, times.macros))
            case CharEnum =>
              if account.None? || backend.scan.None? then reply.None?
              else
                var rows := Characters.Listing(t, account.value, backend.scan.value);
                && reply.Some?
                && ((forall row :: row in rows ==> NulFree(row.character.name)) && |rows| <= 255 ==>
                      Hear(reply.value) == Some(List(AllShown(rows))))
            case AuthSessionPacket(_) => reply.None?
            case PlayerLogin(_) => reply.None?
            case _ => true
    ensures !packet.CharacterCreate? && !packet.CharacterDelete? ==> TableAfter(account, t, packet, backend) == t
  {
    var reply := ReplyTo(account, t, packet, backend);
    match packet {
      case Ping(sequence, _) => PutGet(sequence);
      case RealmSplit(realm) => SplitHeard(realm, reply.value);
      case ReadyForAccountDataTimes =>
        if reply.Some? {
          TimesHeard(backend.clock.value, if account.Some? then backend.times.value else WorldHandler.DataTimes(0, 0, 0), reply.value);
        }
      case CharEnum =>
        if reply.Some? {
          var rows := Characters.Listing(t, account.value, backend.scan.value);
          if forall row :: row in rows ==> NulFree(row.character.name) {
            ListHeard(rows, reply.value);
          }
        }
      case _ =>
    }
  }
}
