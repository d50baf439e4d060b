/** Bodies of the packets a game client sends to the world server (services/world/src/protocol/mod.rs, `read_packet`).
    Strings are byte strings; zlib, the UTF-8 check and the table of known opcodes are parameters. */
module WorldPackets {
  import opened Bytes
  import opened Parsing

  datatype Library = Library(inflate: seq<byte> -> Option<seq<byte>>, utf8: seq<byte> -> bool, known: u16 -> bool)

  datatype Addon = Addon(name: seq<byte>, signature: bool, crc: u32, crc2: u32)

  /** The fixed-size fields that follow the account name. */
  datatype SessionFields = SessionFields(loginServerType: u32, localChallenge: Bytes4, regionId: u32, battlegroupId: u32,
                                         realmId: u32, dosResponse: u64, clientProof: Bytes20)

  datatype AuthSession = AuthSession(build: u32, serverId: u32, username: seq<byte>, fields: SessionFields,
                                     addons: seq<Addon>)

  datatype ClientPacket =
    | AuthSessionPacket(session: AuthSession)
    | Ping(sequence: u32, latency: u32)
    | ReadyForAccountDataTimes
    | CharEnum
    | RealmSplit(realm: u32)
    | CharacterCreate(name: seq<byte>, looks: Bytes8)
    | PlayerLogin(id: u64)
    | CharacterDelete(id: u64)

  const CMSG_CHAR_CREATE: u16 := 0x036
  const CMSG_CHAR_ENUM: u16 := 0x037
  const CMSG_CHAR_DELETE: u16 := 0x038
  const CMSG_PLAYER_LOGIN: u16 := 0x03D
  const CMSG_PING: u16 := 0x1DC
  const CMSG_AUTH_SESSION: u16 := 0x1ED
  const CMSG_REALM_SPLIT: u16 := 0x38C
  const CMSG_READY_FOR_ACCOUNT_DATA_TIMES: u16 := 0x4FF
  /** Opcodes whose handling is still `todo!()`. */
  const UNFINISHED: set<u16> := {0x050, 0x1CC, 0x1CE, 0x1F4, 0x20A, 0x20B, 0x2BF, 0x3D3, 0x4F6}

  const FIELDS_LENGTH: nat := 48

  function FieldsOf(s: seq<byte>): SessionFields
    requires |s| == FIELDS_LENGTH
  {
    SessionFields(GetU32(s[..4]), s[4..8], GetU32(s[8..12]), GetU32(s[12..16]), GetU32(s[16..20]), GetU64(s[20..28]),
                  s[28..48])
  }

  /** The record whose name occupies `cursor..end`. */
  function AddonAt(data: seq<byte>, cursor: nat, end: nat): Addon
    requires cursor <= end && end + 10 <= |data|
  {
    Addon(data[cursor..end], data[end + 1] == 1, GetU32(data[end + 2..end + 6]), GetU32(data[end + 6..end + 10]))
  }

  /** The record at `cursor` and the cursor behind it. */
  function RecordAt(lib: Library, data: seq<byte>, cursor: nat): Decode<(Addon, nat)> {
    match FirstNul(data, cursor)
    case None => Invalid
    case Some(end) =>
      if !lib.utf8(data[cursor..end]) then Invalid
      else if |data| < end + 10 then Abort
      else Decoded((AddonAt(data, cursor, end), end + 10))
  }

  function AddonStep(lib: Library, data: seq<byte>): nat -> Decode<(Addon, nat)> {
    cursor => RecordAt(lib, data, cursor)
  }

  function AddonsFrom(lib: Library, data: seq<byte>, cursor: nat, count: nat): Decode<seq<Addon>> {
    Repeat(AddonStep(lib, data), cursor, count)
  }

  lemma TailFields(data: seq<byte>, end: nat, tail: seq<byte>)
    requires end + 10 <= |data| && tail == data[end + 1..end + 10]
    ensures tail[0] == data[end + 1] && tail[1..5] == data[end + 2..end + 6] && tail[5..9] == data[end + 6..end + 10]
  {
    SubSlice(data, end + 1, end + 10, 1, 5);
    SubSlice(data, end + 1, end + 10, 5, 9);
  }

  /** One turn of the addon loop: the name up to its NUL, then nine more bytes. */
  method ReadRecord(lib: Library, data: seq<byte>, cursor: nat) returns (r: Decode<(Addon, nat)>)
    requires cursor <= |data|
    ensures r == RecordAt(lib, data, cursor)
    ensures r.Decoded? ==> r.value.1 <= |data|
  {
    var rest := data[cursor..];
    var end := FirstNul(data, cursor);
    if end.None? {
      return Invalid;
    }
    var idx := end.value - cursor;
    DropSlice(data, cursor, 0, idx);
    if idx + 10 <= |rest| {
      DropSlice(data, cursor, idx + 1, idx + 10);
    }
    if !lib.utf8(rest[..idx]) {
      return Invalid;
    }
    if |rest[idx + 1..]| < 9 {
      return Abort;
    }
    var tail := rest[idx + 1..idx + 10];
    TailFields(data, end.value, tail);
    r := Decoded((Addon(rest[..idx], tail[0] == 1, GetU32(tail[1..5]), GetU32(tail[5..9])), cursor + idx + 1 + 9));
  }

  /** The addon loop, with its running cursor. */
  method ReadAddons(lib: Library, data: seq<byte>, count: nat) returns (r: Decode<seq<Addon>>)
    requires |data| >= 4
    ensures r == AddonsFrom(lib, data, 4, count)
  {
    ghost var step, all := AddonStep(lib, data), AddonsFrom(lib, data, 4, count);
    var cursor: nat, addons := 4, [];
    PrependNothing(all);
    for i := 0 to count
      invariant cursor <= |data|
      invariant all == Prepend(addons, Repeat(step, cursor, count - i))
    {
      var record := ReadRecord(lib, data, cursor);
      RepeatTurn(step, addons, cursor, count - i, record, all);
      if !record.Decoded? {
        return if record.Invalid? then Invalid else Abort;
      }
      addons, cursor := addons + [record.value.0], record.value.1;
    }
    RepeatEnds(step, addons, cursor);
    r := Decoded(addons);
  }

  /** The decompressed addon block. */
  function AddonBlock(lib: Library, zipped: seq<byte>): Decode<seq<Addon>> {
    if |zipped| < 4 then Abort
    else match lib.inflate(zipped[4..])
      case None => Invalid
      case Some(data) =>
        if |data| != GetU32(zipped[..4]) then Invalid
        else if |data| < 4 then Abort
        else AddonsFrom(lib, data, 4, GetU32(data[..4]))
  }

  function AuthSessionOf(lib: Library, bytes: seq<byte>): Decode<AuthSession> {
    match FirstNul(bytes, 8)
    case None => Invalid
    case Some(end) =>
      var addonStart := end + 1 + FIELDS_LENGTH;
      if |bytes| < addonStart then Abort
      else if !lib.utf8(bytes[8..end]) then Invalid
      else match AddonBlock(lib, bytes[addonStart..])
        case Decoded(addons) =>
          Decoded(AuthSession(GetU32(bytes[..4]), GetU32(bytes[4..8]), bytes[8..end], FieldsOf(bytes[end + 1..addonStart]), addons))
        case Invalid => Invalid
        case Abort => Abort
  }

  /** A NUL-terminated name followed by nine single bytes, the last of which (the outfit) is dropped. */
  function CharacterCreateOf(lib: Library, bytes: seq<byte>): Decode<ClientPacket> {
    match FirstNul(bytes, 0)
    case None => Invalid
    case Some(end) =>
      if !lib.utf8(bytes[..end]) || |bytes| != end + 10 then Invalid
      else Decoded(CharacterCreate(bytes[..end], bytes[end + 1..end + 9]))
  }

  /** `read_packet`; trailing bytes are an error wherever a body is decoded. */
  function PacketOf(lib: Library, opcode: u16, bytes: seq<byte>): Decode<ClientPacket> {
    if opcode == CMSG_AUTH_SESSION then
      match AuthSessionOf(lib, bytes)
      case Decoded(session) => Decoded(AuthSessionPacket(session))
      case Invalid => Invalid
      case Abort => Abort
    else if opcode == CMSG_PING then
      if |bytes| == 8 then Decoded(Ping(GetU32(bytes[..4]), GetU32(bytes[4..]))) else Invalid
    else if opcode == CMSG_READY_FOR_ACCOUNT_DATA_TIMES then Decoded(ReadyForAccountDataTimes)
    else if opcode == CMSG_CHAR_ENUM then Decoded(CharEnum)
    else if opcode == CMSG_REALM_SPLIT then Decoded(RealmSplit(1))
    else if opcode == CMSG_CHAR_CREATE then CharacterCreateOf(lib, bytes)
    else if opcode == CMSG_PLAYER_LOGIN then if |bytes| == 8 then Decoded(PlayerLogin(GetU64(bytes))) else Invalid
    else if opcode == CMSG_CHAR_DELETE then if |bytes| == 8 then Decoded(CharacterDelete(GetU64(bytes))) else Invalid
    else if opcode in UNFINISHED then Abort
    else Invalid
  }

  method ReadPacket(lib: Library, opcode: u16, bytes: seq<byte>) returns (r: Decode<ClientPacket>)
    ensures r == PacketOf(lib, opcode, bytes)
  {
    if opcode != CMSG_AUTH_SESSION {
      return PacketOf(lib, opcode, bytes);
    }
    var end := FirstNul(bytes, 8);
    if end.None? {
      return Invalid;
    }
    var addonStart := end.value + 1 + 4 + 4 + 4 + 4 + 4 + 8 + 20;
    if |bytes| < addonStart {
      return Abort;
    }
    var packet, zipped := bytes[..addonStart], bytes[addonStart..];
    var username := packet[8..end.value];
    assert username == bytes[8..end.value];
    if !lib.utf8(username) {
      return Invalid;
    }
    if |zipped| < 4 {
      return Abort;
    }
    var unzipped := lib.inflate(zipped[4..]);
    if unzipped.None? || |unzipped.value| != GetU32(zipped[..4]) {
      return Invalid;
    }
    if |unzipped.value| < 4 {
      return Abort;
    }
    var addons := ReadAddons(lib, unzipped.value, GetU32(unzipped.value[..4]));
    if !addons.Decoded? {
      return if addons.Invalid? then Invalid else Abort;
    }
    r := Decoded(AuthSessionPacket(AuthSession(
                                     GetU32(bytes[..4]), GetU32(bytes[4..8]), username,
                                     FieldsOf(bytes[end.value + 1..addonStart]), addons.value)));
  }

  // ---- what a client puts on the wire ----

  datatype SentAddon = SentAddon(name: seq<byte>, flag: byte, crc: u32, crc2: u32)

  function Received(addon: SentAddon): Addon {
    Addon(addon.name, addon.flag == 1, addon.crc, addon.crc2)
  }

  function EncodeAddon(addon: SentAddon): (r: seq<byte>)
    ensures |r| == |addon.name| + 10
  {
    addon.name + [0] + [addon.flag] + PadLe(addon.crc, 4) + PadLe(addon.crc2, 4)
  }

  function Records(addons: seq<SentAddon>): seq<seq<byte>> {
    seq(|addons|, i requires 0 <= i < |addons| => EncodeAddon(addons[i]))
  }

  function EncodeBlock(addons: seq<SentAddon>): seq<byte> {
    PadLe(|addons|, 4) + Flatten(Records(addons))
  }

  function EncodeFields(f: SessionFields): (r: seq<byte>)
    ensures |r| == FIELDS_LENGTH
  {
    PadLe(f.loginServerType, 4) + f.localChallenge + PadLe(f.regionId, 4) + PadLe(f.battlegroupId, 4)
    + PadLe(f.realmId, 4) + PadLe(f.dosResponse, 8) + f.clientProof
  }

  function EncodeAuthSession(build: u32, serverId: u32, username: seq<byte>, fields: SessionFields, blockLength: nat,
                             zipped: seq<byte>): seq<byte>
  {
    (PadLe(build, 4) + PadLe(serverId, 4)) + username + ([0] + EncodeFields(fields)) + (PadLe(blockLength, 4) + zipped)
  }

  predicate Nameable(lib: Library, s: seq<byte>) {
    NulFree(s) && lib.utf8(s)
  }

  /** The cursor after the first `i` records. */
  function CursorAfter(addons: seq<SentAddon>, i: nat): nat
    requires i <= |addons|
  {
    if i == 0 then 4 else CursorAfter(addons, i - 1) + |addons[i - 1].name| + 10
  }

  lemma FieldsLayout(f: SessionFields)
    ensures var s := EncodeFields(f);
            && s[..4] == PadLe(f.loginServerType, 4) && s[4..8] == f.localChallenge
            && s[8..12] == PadLe(f.regionId, 4) && s[12..16] == PadLe(f.battlegroupId, 4)
            && s[16..20] == PadLe(f.realmId, 4) && s[20..28] == PadLe(f.dosResponse, 8) && s[28..48] == f.clientProof
  {
  }

  lemma FieldsRoundTrip(f: SessionFields)
    ensures FieldsOf(EncodeFields(f)) == f
  {
    FieldsLayout(f);
    PutGet(f.loginServerType);
    PutGet(f.regionId);
    PutGet(f.battlegroupId);
    PutGet(f.realmId);
    PutGet(f.dosResponse);
  }

  /** `record` holds the addon field by field. */
  predicate LaidOut(addon: SentAddon, record: seq<byte>) {
    var n := |addon.name|;
    && |record| == n + 10 && record[0..n] == addon.name && record[n] == 0 && record[n + 1] == addon.flag
    && record[n + 2..n + 6] == PadLe(addon.crc, 4) && record[n + 6..n + 10] == PadLe(addon.crc2, 4)
  }

  lemma AddonLayout(addon: SentAddon)
    ensures LaidOut(addon, EncodeAddon(addon))
  {
  }

  lemma AddonAtLayout(addon: SentAddon, record: seq<byte>, data: seq<byte>, c: nat, end: nat)
    requires LaidOut(addon, record) && c + |record| <= |data| && data[c..c + |record|] == record
    requires end == c + |addon.name|
    ensures data[c..end] == addon.name && data[end] == 0
    ensures AddonAt(data, c, end) == Received(addon)
  {
    var n := |addon.name|;
    SliceSub(data, c, record, 0, n);
    SliceSub(data, c, record, n + 2, n + 6);
    SliceSub(data, c, record, n + 6, n + 10);
    SliceAt(data, c, record, n);
    SliceAt(data, c, record, n + 1);
    PutGet(addon.crc);
    PutGet(addon.crc2);
  }

  /** Reading one record back, wherever it sits in the block. */
  lemma OneAddon(lib: Library, addon: SentAddon, record: seq<byte>, data: seq<byte>, c: nat, step: nat -> Decode<(Addon, nat)>)
    requires Nameable(lib, addon.name) && LaidOut(addon, record) && step == AddonStep(lib, data)
    requires c + |record| <= |data| && data[c..c + |record|] == record
    ensures step(c) == Decoded((Received(addon), c + |record|))
  {
    AddonAtLayout(addon, record, data, c, c + |addon.name|);
    TextThenNul(data, c, c + |addon.name|, addon.name);
  }

  function ReceivedAll(addons: seq<SentAddon>): seq<Addon> {
    seq(|addons|, i requires 0 <= i < |addons| => Received(addons[i]))
  }

  lemma {:induction false} CursorExact(addons: seq<SentAddon>, i: nat)
    requires i <= |addons|
    ensures CursorAfter(addons, i) == 4 + |Flatten(Records(addons)[..i])|
  {
    if i > 0 {
      CursorExact(addons, i - 1);
      FlattenAround(Records(addons), i - 1);
    }
  }

  lemma AddonReadsAt(lib: Library, addon: SentAddon, record: seq<byte>, data: seq<byte>, c: nat, step: nat -> Decode<(Addon, nat)>)
    requires Nameable(lib, addon.name) && LaidOut(addon, record) && step == AddonStep(lib, data)
    ensures ReadsAt(step, record, Received(addon), data, c)
  {
    if c + |record| <= |data| && data[c..c + |record|] == record {
      OneAddon(lib, addon, record, data, c, step);
    }
  }

  lemma AddonReads(lib: Library, addon: SentAddon, record: seq<byte>, data: seq<byte>, step: nat -> Decode<(Addon, nat)>)
    requires Nameable(lib, addon.name) && LaidOut(addon, record) && step == AddonStep(lib, data)
    ensures Reads(step, record, Received(addon), data)
  {
    forall c: nat
      ensures ReadsAt(step, record, Received(addon), data, c)
    {
      AddonReadsAt(lib, addon, record, data, c, step);
    }
  }

  lemma RecordsRead(lib: Library, addons: seq<SentAddon>, records: seq<seq<byte>>, items: seq<Addon>, block: seq<byte>,
                    step: nat -> Decode<(Addon, nat)>)
    requires (forall a :: a in addons ==> Nameable(lib, a.name)) && step == AddonStep(lib, block)
    requires records == Records(addons) && items == ReceivedAll(addons)
    ensures forall k :: 0 <= k < |records| ==> Reads(step, records[k], items[k], block)
  {
    forall k | 0 <= k < |records|
      ensures Reads(step, records[k], items[k], block)
    {
      AddonLayout(addons[k]);
      AddonReads(lib, addons[k], records[k], block, step);
    }
  }

  /** The block as a head and records, each of which can be read wherever it sits. */
  lemma BlockParts(lib: Library, addons: seq<SentAddon>, block: seq<byte>, i: nat, cursor: nat)
    returns (records: seq<seq<byte>>, items: seq<Addon>, step: nat -> Decode<(Addon, nat)>)
    requires i <= |addons| && (forall a :: a in addons ==> Nameable(lib, a.name)) && block == EncodeBlock(addons)
    requires cursor == CursorAfter(addons, i)
    ensures |records| == |addons| && items == ReceivedAll(addons) && step == AddonStep(lib, block)
    ensures block == PadLe(|addons|, 4) + Flatten(records) && cursor == 4 + |Flatten(records[..i])|
    ensures forall k :: 0 <= k < |records| ==> Reads(step, records[k], items[k], block)
  {
    records, items, step := Records(addons), ReceivedAll(addons), AddonStep(lib, block);
    RecordsRead(lib, addons, records, items, block, step);
    CursorExact(addons, i);
  }

  /** After `i` records the cursor is at `4 + sum(len(name) + 10)` and exactly those records have been read. */
  lemma AddonsAfter(lib: Library, addons: seq<SentAddon>, block: seq<byte>, i: nat, cursor: nat)
    requires i <= |addons| && (forall a :: a in addons ==> Nameable(lib, a.name)) && block == EncodeBlock(addons)
    requires cursor == CursorAfter(addons, i)
    ensures AddonsFrom(lib, block, 4, |addons|)
            == Prepend(ReceivedAll(addons)[..i], AddonsFrom(lib, block, cursor, |addons| - i))
  {
    var records, items, step := BlockParts(lib, addons, block, i, cursor);
    PartsReadBack(step, PadLe(|addons|, 4), records, items, block, i, cursor);
  }

  lemma BlockRoundTrip(lib: Library, addons: seq<SentAddon>)
    requires |addons| < 0x1_0000_0000 && forall a :: a in addons ==> Nameable(lib, a.name)
    ensures |EncodeBlock(addons)| >= 4 && GetU32(EncodeBlock(addons)[..4]) == |addons|
    ensures AddonsFrom(lib, EncodeBlock(addons), 4, |addons|) == Decoded(ReceivedAll(addons))
    ensures CursorAfter(addons, |addons|) == |EncodeBlock(addons)|
  {
    PutGet(|addons|);
    var block := EncodeBlock(addons);
    assert block[..4] == PadLe(|addons|, 4);
    var records, items, step := BlockParts(lib, addons, block, |addons|, CursorAfter(addons, |addons|));
    assert records[..|addons|] == records;
    AllPartsReadBack(step, PadLe(|addons|, 4), records, items, block);
  }

  /** Every field of an auth session survives the trip; the split between session and addon block falls
      49 bytes after the first NUL. */
  lemma AuthSessionRoundTrip(lib: Library, build: u32, serverId: u32, username: seq<byte>, fields: SessionFields,
                             addons: seq<SentAddon>, zipped: seq<byte>)
    requires Nameable(lib, username) && forall a :: a in addons ==> Nameable(lib, a.name)
    requires |addons| < 0x1_0000_0000 && |EncodeBlock(addons)| < 0x1_0000_0000
    requires lib.inflate(zipped) == Some(EncodeBlock(addons))
    ensures var bytes := EncodeAuthSession(build, serverId, username, fields, |EncodeBlock(addons)|, zipped);
            && FirstNul(bytes, 8) == Some(8 + |username|)
            && |bytes| - |PadLe(|EncodeBlock(addons)|, 4) + zipped| == 8 + |username| + 49
            && PacketOf(lib, CMSG_AUTH_SESSION, bytes)
               == Decoded(AuthSessionPacket(AuthSession(build, serverId, username, fields, ReceivedAll(addons))))
  {
    var block := PadLe(|EncodeBlock(addons)|, 4) + zipped;
    var bytes := EncodeAuthSession(build, serverId, username, fields, |EncodeBlock(addons)|, zipped);
    var end := 8 + |username|;
    assert bytes[..4] == PadLe(build, 4) && bytes[4..8] == PadLe(serverId, 4);
    forall i | 8 <= i < end
      ensures bytes[i] == username[i - 8]
    {
    }
    assert bytes[end] == 0;
    assert bytes[8..end] == username;
    assert bytes[end + 1..end + 49] == EncodeFields(fields);
    assert bytes[end + 49..] == block;
    FirstNulAt(bytes, 8, end);
    PutGet(build);
    PutGet(serverId);
    FieldsRoundTrip(fields);
    BlockRoundTrip(lib, addons);
    PutGet(|EncodeBlock(addons)|);
    assert block[..4] == PadLe(|EncodeBlock(addons)|, 4) && block[4..] == zipped;
    assert AddonBlock(lib, block) == Decoded(ReceivedAll(addons));
  }

  // ---- what goes wrong ----

  /** One addon of the block: its name never ends, is not UTF-8, or has fewer than nine bytes behind it. */
  lemma RecordFails(lib: Library, data: seq<byte>, cursor: nat, name: seq<byte>, rest: seq<byte>)
    requires cursor <= |data| && NulFree(name)
    ensures data[cursor..] == name ==> RecordAt(lib, data, cursor) == Invalid
    ensures data[cursor..] == name + [0] + rest && !lib.utf8(name) ==> RecordAt(lib, data, cursor) == Invalid
    ensures data[cursor..] == name + [0] + rest && lib.utf8(name) && |rest| < 9 ==> RecordAt(lib, data, cursor) == Abort
  {
    if data[cursor..] == name {
      NeverEnds(data, cursor, name);
    } else if data[cursor..] == name + [0] + rest {
      EndsAt(data, cursor, name, rest);
    }
  }

  lemma {:induction false} NeverEnds(data: seq<byte>, from: nat, text: seq<byte>)
    requires from <= |data| && data[from..] == text && NulFree(text)
    ensures FirstNul(data, from) == None
    decreases |data| - from
  {
    if from < |data| {
      assert data[from] == text[0];
      assert data[from + 1..] == text[1..];
      NeverEnds(data, from + 1, text[1..]);
    }
  }

  lemma EndsAt(data: seq<byte>, from: nat, text: seq<byte>, rest: seq<byte>)
    requires from <= |data| && data[from..] == text + [0] + rest && NulFree(text)
    ensures FirstNul(data, from) == Some(from + |text|) && |data| == from + |text| + 1 + |rest|
    ensures data[from..from + |text|] == text && data[from + |text| + 1..] == rest
  {
    assert data[from..][..|text|] == text && data[from..][|text|] == 0 && data[from..][|text| + 1..] == rest;
    DropSlice(data, from, 0, |text|);
    TextThenNul(data, from, from + |text|, text);
    assert data[from..from + |text|] == data[from..][..|text|] && data[from + |text| + 1..] == data[from..][|text| + 1..];
  }

  /** The addon loop takes its outcome from the first record that fails. */
  lemma AddonsStop(lib: Library, data: seq<byte>, cursor: nat, count: nat)
    requires count > 0
    ensures RecordAt(lib, data, cursor) == Invalid ==> AddonsFrom(lib, data, cursor, count) == Invalid
    ensures RecordAt(lib, data, cursor) == Abort ==> AddonsFrom(lib, data, cursor, count) == Abort
  {
  }

  /** An opening without a name. */
  lemma NamelessOpening(lib: Library, head: seq<byte>, text: seq<byte>)
    requires |head| == 8 && NulFree(text)
    ensures PacketOf(lib, 0x1ED, head + text) == Invalid
  {
    NeverEnds(head + text, 8, text);
  }

  /** An opening that is cut off, whose name is not UTF-8, or whose addon list does not unzip to what it announces. */
  lemma OpeningFails(lib: Library, head: seq<byte>, name: seq<byte>, fields: seq<byte>, zipped: seq<byte>, bytes: seq<byte>)
    requires |head| == 8 && NulFree(name) && bytes == head + (name + [0] + (fields + zipped))
    requires |fields| <= 48 && (|fields| < 48 ==> zipped == [])
    ensures var r := PacketOf(lib, 0x1ED, bytes);
            if |fields| < 48 then r == Abort
            else if !lib.utf8(name) then r == Invalid
            else if |zipped| < 4 then r == Abort
            else if lib.inflate(zipped[4..]).None? then r == Invalid
            else
              var data := lib.inflate(zipped[4..]).value;
              if |data| != GetU32(zipped[..4]) then r == Invalid
              else if |data| < 4 then r == Abort
              else
                var addons := AddonsFrom(lib, data, 4, GetU32(data[..4]));
                (r == Invalid <==> addons == Invalid) && (r == Abort <==> addons == Abort)
  {
    var end := 8 + |name|;
    assert bytes[8..] == name + [0] + (fields + zipped);
    EndsAt(bytes, 8, name, fields + zipped);
    if |fields| == 48 {
      assert bytes[end + 49..] == bytes[end + 1..][48..] == zipped;
    }
  }
}
