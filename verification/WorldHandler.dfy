/** What the packet handler does for one client packet (services/world/src/world/world.rs, `handle_packet`): the reply it
    sends and what becomes of the character table. */
module WorldHandler {
  import opened Bytes
  import opened WorldPackets
  import opened WorldFrames
  import opened Characters
  import opened CharacterList

  /** When the three kinds of account-wide data last changed. */
  datatype DataTimes = DataTimes(config: u32, bindings: u32, macros: u32)

  /** How the services behind the handler answer for one packet: the database to a creation or deletion, the order in which
      it comes upon the rows of a listing, the account data, and the clock. `None` is a failure. */
  datatype Backend = Backend(db: Answers, deletes: bool, scan: Option<seq<u64>>, times: Option<DataTimes>, clock: Option<u32>)

  const SMSG_CHAR_CREATE: u16 := 0x03A
  const SMSG_CHAR_ENUM: u16 := 0x03B
  const SMSG_CHAR_DELETE: u16 := 0x03C
  const SMSG_PONG: u16 := 0x1DD
  const SMSG_ACCOUNT_DATA_TIMES: u16 := 0x209
  const SMSG_REALM_SPLIT: u16 := 0x38B
  /** "01/01/01" and its NUL. */
  const SPLIT_DATE: seq<byte> := [0x30, 0x31, 0x2F, 0x30, 0x31, 0x2F, 0x30, 0x31, 0]

  function CodeByte(c: ResponseCode): byte {
    match c
    case CharCreateSuccess => 47
    case CharCreateNameInUse => 50
    case CharDeleteSuccess => 71
    case CharDeleteFailed => 72
    case CharNameFailure => 88
    case CharNameNoName => 89
    case CharNameTooShort => 90
  }

  function CodeReply(opcode: u16, code: Option<ResponseCode>): Option<Message> {
    if code.Some? then Some(Message(opcode, [CodeByte(code.value)])) else None
  }

  const GLOBAL_CACHE_MASK: u32 := 0x15

  /** Always 21 bytes. */
  function TimesBody(clock: u32, times: DataTimes): (r: seq<byte>)
    ensures |r| == 21
  {
    PadLe(clock, 4) + [0] + PadLe(GLOBAL_CACHE_MASK, 4)
    + PadLe(times.config, 4) + PadLe(times.bindings, 4) + PadLe(times.macros, 4)
  }

  /** A client without an account gets zeros; the service is asked only for one with an account. */
  function TimesReply(account: Option<u32>, backend: Backend): Option<Message> {
    if (account.Some? && backend.times.None?) || backend.clock.None? then None
    else
      var times := if account.Some? then backend.times.value else DataTimes(0, 0, 0);
      Some(Message(SMSG_ACCOUNT_DATA_TIMES, TimesBody(backend.clock.value, times)))
  }

  /** The rows a listing shows, `None` if the handler gives up. */
  function ListedFor(account: Option<u32>, t: Table, backend: Backend): Option<seq<Listed>> {
    if account.None? || backend.scan.None? then None else Some(Listing(t, account.value, backend.scan.value))
  }

  function ListReply(rows: Option<seq<Listed>>): Option<Message> {
    if rows.Some? then Some(Message(SMSG_CHAR_ENUM, ListBody(rows.value))) else None
  }

  /** The packet as a request to the character table, if it is one. */
  function RequestIn(account: Option<u32>, packet: ClientPacket, backend: Backend): Option<Request> {
    match packet
    case CharacterCreate(name, looks) => Some(Create(account, name, looks, backend.db))
    case CharacterDelete(id) => Some(Delete(id, backend.deletes))
    case _ => None
  }

  function TableAfter(account: Option<u32>, t: Table, packet: ClientPacket, backend: Backend): Table {
    var request := RequestIn(account, packet, backend);
    if request.Some? then Handled(t, request.value).0 else t
  }

  /** The reply, or `None` if the handler sends nothing or fails. */
  function ReplyTo(account: Option<u32>, t: Table, packet: ClientPacket, backend: Backend): Option<Message> {
    match packet
    case AuthSessionPacket(_) => None
    case Ping(sequence, _) => Some(Message(SMSG_PONG, PadLe(sequence, 4)))
    case ReadyForAccountDataTimes => TimesReply(account, backend)
    case CharEnum => ListReply(ListedFor(account, t, backend))
    case RealmSplit(realm) => Some(Message(SMSG_REALM_SPLIT, PadLe(realm, 4) + PadLe(0, 4) + SPLIT_DATE))
    case CharacterCreate(name, looks) => CodeReply(SMSG_CHAR_CREATE, Handled(t, Create(account, name, looks, backend.db)).1)
    case PlayerLogin(_) => None
    case CharacterDelete(id) => CodeReply(SMSG_CHAR_DELETE, Handled(t, Delete(id, backend.deletes)).1)
  }

  /** `handle_packet` up to the sending of the reply. */
  method HandleRequest(service: CharacterService, account: Option<u32>, packet: ClientPacket, backend: Backend)
    returns (reply: Option<Message>)
    modifies service
    ensures service.characters == TableAfter(account, old(service.characters), packet, backend)
    ensures reply == ReplyTo(account, old(service.characters), packet, backend)
  {
    match packet
    case CharacterCreate(name, looks) =>
      var code := service.HandleCreate(account, name, looks, backend.db);
      reply := CodeReply(SMSG_CHAR_CREATE, code);
    case CharacterDelete(id) =>
      var code := service.HandleDelete(id, backend.deletes);
      reply := CodeReply(SMSG_CHAR_DELETE, code);
    case CharEnum =>
      if account.None? {
        return None;
      }
      var rows := service.GetByAccount(account.value, backend.scan);
      reply := ListReply(rows);
    case _ =>
      reply := ReplyTo(account, service.characters, packet, backend);
  }

  /** Whatever the packet and the services, the table keeps its names distinct, proper and long enough. */
  lemma PacketKeepsNames(account: Option<u32>, t: Table, packet: ClientPacket, backend: Backend)
    requires NamesInv(t)
    ensures NamesInv(TableAfter(account, t, packet, backend))
  {
    var request := RequestIn(account, packet, backend);
    if request.Some? {
      HandledKeepsNames(t, request.value);
    }
  }

  /** The packet does not ask for a list whose length, cut down to sixteen bits, is one of the two that overflow. */
  predicate Answerable(account: Option<u32>, t: Table, packet: ClientPacket, backend: Backend) {
    packet.CharEnum? && ListedFor(account, t, backend).Some? ==>
      ListLength(ListedFor(account, t, backend).value) % 0x1_0000 < 65534
  }

  /** A reply's header overflows exactly for such a list; all other replies are short. */
  lemma ReplyHeaded(account: Option<u32>, t: Table, packet: ClientPacket, backend: Backend)
    ensures var reply := ReplyTo(account, t, packet, backend);
            (reply.Some? ==> Headed(reply.value)) <==> Answerable(account, t, packet, backend)
    ensures !Answerable(account, t, packet, backend) ==> TableAfter(account, t, packet, backend) == t
  {
    var rows := ListedFor(account, t, backend);
    if packet.CharEnum? && rows.Some? {
      BodyLength(rows.value);
    }
  }

  /** A reply's header tells its true length except for a list of more than 65533 bytes. */
  lemma ReplyFits(account: Option<u32>, t: Table, packet: ClientPacket, backend: Backend)
    ensures var reply, rows := ReplyTo(account, t, packet, backend), ListedFor(account, t, backend);
            (reply.Some? ==> Fits(reply.value)) <==> (packet.CharEnum? && rows.Some? ==> ListLength(rows.value) <= 65533)
  {
    var rows := ListedFor(account, t, backend);
    if packet.CharEnum? && rows.Some? {
      BodyLength(rows.value);
    }
  }

  // ---- one packet after the other ----

  /** What the handler works on: a packet, the account of its client, and how the services answer. */
  datatype Job = Job(account: Option<u32>, packet: ClientPacket, backend: Backend)

  /** The character table after some packets. */
  function TableThrough(t: Table, jobs: seq<Job>): Table {
    if jobs == [] then t
    else
      var last := jobs[|jobs| - 1];
      TableAfter(last.account, TableThrough(t, jobs[..|jobs| - 1]), last.packet, last.backend)
  }

  /** The reply to the last of them. */
  function LastReply(t: Table, jobs: seq<Job>): Option<Message>
    requires jobs != []
  {
    var last := jobs[|jobs| - 1];
    ReplyTo(last.account, TableThrough(t, jobs[..|jobs| - 1]), last.packet, last.backend)
  }

  /** All replies, in order. */
  function Answers(t: Table, jobs: seq<Job>): seq<Message> {
    if jobs == [] then []
    else
      var reply := LastReply(t, jobs);
      Answers(t, jobs[..|jobs| - 1]) + if reply.Some? then [reply.value] else []
  }

  /** None of them asks for a list that overflows its header. */
  predicate AllAnswerable(t: Table, jobs: seq<Job>) {
    jobs == [] ||
      var front, last := jobs[..|jobs| - 1], jobs[|jobs| - 1];
      AllAnswerable(t, front) && Answerable(last.account, TableThrough(t, front), last.packet, last.backend)
  }

  lemma {:induction false} TableKeepsNames(t: Table, jobs: seq<Job>)
    requires NamesInv(t)
    ensures NamesInv(TableThrough(t, jobs))
  {
    if jobs != [] {
      var front, last := jobs[..|jobs| - 1], jobs[|jobs| - 1];
      TableKeepsNames(t, front);
      PacketKeepsNames(last.account, TableThrough(t, front), last.packet, last.backend);
    }
  }

  lemma {:induction false} TableSplit(t: Table, x: seq<Job>, y: seq<Job>)
    ensures TableThrough(t, x + y) == TableThrough(TableThrough(t, x), y)
  {
    if y == [] {
      assert x + y == x;
    } else {
      TableSplit(t, x, y[..|y| - 1]);
      assert (x + y)[..|x + y| - 1] == x + y[..|y| - 1];
    }
  }
}
