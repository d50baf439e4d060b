/** The login protocol on the wire (services/auth/src/protocol): client messages, replies and the realm list. */
module AuthPackets {
  import opened Bytes
  import opened Parsing
  import opened Srp

  datatype Command = ConnectCommand | ProofCommand | ReConnectCommand | ReProofCommand | RealmListCommand

  datatype ReturnCode = Success | Failed | BannedCode | UnknownAccountCode | IncorrectPasswordCode | VersionInvalid | SuspendedCode

  datatype ConnectRequest = ConnectRequest(
    error: byte, size: u16, gameName: Bytes4, major: byte, minor: byte, patch: byte, build: u16,
    platform: Bytes4, os: Bytes4, country: Bytes4, timezoneBias: u32, ipv4: Bytes4, identifierLength: byte)

  datatype ConnectProof = ConnectProof(
    userPublicKey: Bytes32, userProof: Bytes20, crcHash: Bytes20, numberOfKeys: byte, securityFlags: byte)

  datatype ReconnectProof = ReconnectProof(proofData: Bytes16, clientProof: Bytes20, unknown: Bytes20, keyCount: byte)

  datatype Message =
    | Connect(request: ConnectRequest)
    | Proof(proof: ConnectProof)
    | ReConnect(request: ConnectRequest)
    | ReProof(reproof: ReconnectProof)
    | RealmList(data: Bytes4)

  const BUILD: u16 := 12340

  function CommandByte(c: Command): byte {
    match c
    case ConnectCommand => 0x00
    case ProofCommand => 0x01
    case ReConnectCommand => 0x02
    case ReProofCommand => 0x03
    case RealmListCommand => 0x10
  }

  function CommandOf(b: byte): Option<Command> {
    if b == 0x00 then Some(ConnectCommand)
    else if b == 0x01 then Some(ProofCommand)
    else if b == 0x02 then Some(ReConnectCommand)
    else if b == 0x03 then Some(ReProofCommand)
    else if b == 0x10 then Some(RealmListCommand)
    else None
  }

  function CommandIn(m: Message): Command {
    match m
    case Connect(_) => ConnectCommand
    case Proof(_) => ProofCommand
    case ReConnect(_) => ReConnectCommand
    case ReProof(_) => ReProofCommand
    case RealmList(_) => RealmListCommand
  }

  function ReturnByte(c: ReturnCode): byte {
    match c
    case Success => 0x00
    case Failed => 0x01
    case BannedCode => 0x03
    case UnknownAccountCode => 0x04
    case IncorrectPasswordCode => 0x05
    case VersionInvalid => 0x09
    case SuspendedCode => 0x0C
  }

  function ReasonFor(f: LoginFailure): ReturnCode {
    match f
    case Suspended => SuspendedCode
    case Banned => BannedCode
    case UnknownAccount => UnknownAccountCode
    case IncorrectPassword => IncorrectPasswordCode
    case DatabaseError => Failed
  }

  /** The size of the packed struct behind each command. */
  function BodyLength(c: Command): nat {
    match c
    case ConnectCommand => 33
    case ProofCommand => 74
    case ReConnectCommand => 33
    case ReProofCommand => 57
    case RealmListCommand => 4
  }

  // ---- client messages ----

  function EncodeRequest(r: ConnectRequest): (s: seq<byte>)
    ensures |s| == 33
  {
    [r.error] + PutLe16(r.size) + r.gameName + [r.major, r.minor, r.patch] + PutLe16(r.build)
    + r.platform + r.os + r.country + PadLe(r.timezoneBias, 4) + r.ipv4 + [r.identifierLength]
  }

  function DecodeRequest(s: seq<byte>): ConnectRequest
    requires |s| == 33
  {
    ConnectRequest(s[0], GetLe16(s[1..3]), s[3..7], s[7], s[8], s[9], GetLe16(s[10..12]), s[12..16], s[16..20], s[20..24],
                   GetU32(s[24..28]), s[28..32], s[32])
  }

  function EncodeProof(p: ConnectProof): (s: seq<byte>)
    ensures |s| == 74
  {
    p.userPublicKey + p.userProof + p.crcHash + [p.numberOfKeys, p.securityFlags]
  }

  function DecodeProof(s: seq<byte>): ConnectProof
    requires |s| == 74
  {
    ConnectProof(s[..32], s[32..52], s[52..72], s[72], s[73])
  }

  function EncodeReproof(p: ReconnectProof): (s: seq<byte>)
    ensures |s| == 57
  {
    p.proofData + p.clientProof + p.unknown + [p.keyCount]
  }

  function DecodeReproof(s: seq<byte>): ReconnectProof
    requires |s| == 57
  {
    ReconnectProof(s[..16], s[16..36], s[36..56], s[56])
  }

  function EncodeBody(m: Message): (s: seq<byte>)
    ensures |s| == BodyLength(CommandIn(m))
  {
    match m
    case Connect(r) => EncodeRequest(r)
    case Proof(p) => EncodeProof(p)
    case ReConnect(r) => EncodeRequest(r)
    case ReProof(p) => EncodeReproof(p)
    case RealmList(data) => data
  }

  function DecodeBody(c: Command, s: seq<byte>): (m: Message)
    requires |s| == BodyLength(c)
    ensures CommandIn(m) == c
  {
    match c
    case ConnectCommand => Connect(DecodeRequest(s))
    case ProofCommand => Proof(DecodeProof(s))
    case ReConnectCommand => ReConnect(DecodeRequest(s))
    case ReProofCommand => ReProof(DecodeReproof(s))
    case RealmListCommand => RealmList(s)
  }

  lemma RequestFront(r: ConnectRequest, s: seq<byte>)
    requires s == EncodeRequest(r)
    ensures s[0] == r.error && s[1..3] == PutLe16(r.size) && s[3..7] == r.gameName
    ensures s[7] == r.major && s[8] == r.minor && s[9] == r.patch && s[10..12] == PutLe16(r.build)
  {
    var front := [r.error] + PutLe16(r.size) + r.gameName + [r.major, r.minor, r.patch] + PutLe16(r.build);
    assert s[..12] == front;
    assert front[1..3] == PutLe16(r.size) && front[3..7] == r.gameName && front[10..12] == PutLe16(r.build);
    assert s[1..3] == s[..12][1..3] && s[3..7] == s[..12][3..7] && s[10..12] == s[..12][10..12];
  }

  lemma RequestBack(r: ConnectRequest, s: seq<byte>)
    requires s == EncodeRequest(r)
    ensures s[12..16] == r.platform && s[16..20] == r.os && s[20..24] == r.country
    ensures s[24..28] == PadLe(r.timezoneBias, 4) && s[28..32] == r.ipv4 && s[32] == r.identifierLength
  {
    var back := r.platform + r.os + r.country + PadLe(r.timezoneBias, 4) + r.ipv4 + [r.identifierLength];
    assert s[12..] == back;
    DropSlice(s, 12, 0, 4);
    DropSlice(s, 12, 4, 8);
    DropSlice(s, 12, 8, 12);
    DropSlice(s, 12, 12, 16);
    DropSlice(s, 12, 16, 20);
    assert back[0..4] == r.platform && back[4..8] == r.os && back[8..12] == r.country;
    assert back[12..16] == PadLe(r.timezoneBias, 4) && back[16..20] == r.ipv4;
  }

  lemma RequestRoundTrip(r: ConnectRequest)
    ensures DecodeRequest(EncodeRequest(r)) == r
  {
    RequestFront(r, EncodeRequest(r));
    RequestBack(r, EncodeRequest(r));
    ShortRoundTrip(r.size);
    ShortRoundTrip(r.build);
    PutGet(r.timezoneBias);
  }

  lemma ProofRoundTrip(p: ConnectProof)
    ensures DecodeProof(EncodeProof(p)) == p
  {
    var s := EncodeProof(p);
    assert s[..32] == p.userPublicKey && s[32..52] == p.userProof && s[52..72] == p.crcHash;
  }

  lemma ReproofRoundTrip(p: ReconnectProof)
    ensures DecodeReproof(EncodeReproof(p)) == p
  {
    var s := EncodeReproof(p);
    assert s[..16] == p.proofData && s[16..36] == p.clientProof && s[36..56] == p.unknown;
  }

  lemma BodyRoundTrip(m: Message)
    ensures DecodeBody(CommandIn(m), EncodeBody(m)) == m
    ensures CommandOf(CommandByte(CommandIn(m))) == Some(CommandIn(m))
  {
    match m
    case Connect(r) => RequestRoundTrip(r);
    case Proof(p) => ProofRoundTrip(p);
    case ReConnect(r) => RequestRoundTrip(r);
    case ReProof(p) => ReproofRoundTrip(p);
    case RealmList(_) =>
  }

  /** A byte stream in both directions: what has not been read, and what each write put there. */
  class Stream {
    var input: seq<byte>
    var writes: seq<seq<byte>>

    constructor (bytes: seq<byte>)
      ensures input == bytes && writes == []
    {
      input, writes := bytes, [];
    }

    /** `read`, delivering everything that is there up to the size asked for. */
    method Read(n: nat) returns (bytes: seq<byte>)
      modifies this`input
      ensures bytes + input == old(input)
      ensures |bytes| == if |old(input)| < n then |old(input)| else n
    {
      var k := if |input| < n then |input| else n;
      bytes, input := input[..k], input[k..];
    }

    method WriteAll(bytes: seq<byte>)
      modifies this`writes
      ensures writes == old(writes) + [bytes]
    {
      writes := writes + [bytes];
    }
  }

  /** A message at the front of the input, and the input behind it. */
  function NextMessage(input: seq<byte>): (r: Option<(Message, seq<byte>)>)
    ensures r.Some? ==> |r.value.1| < |input|
  {
    if input == [] then None
    else match CommandOf(input[0])
      case None => None
      case Some(c) =>
        var end := 1 + BodyLength(c);
        if |input| < end then None else Some((DecodeBody(c, input[1..end]), input[end..]))
  }

  lemma ThreeParts(all: seq<byte>, a: seq<byte>, b: seq<byte>, c: seq<byte>)
    requires all == a + (b + c)
    ensures |all| == |a| + |b| + |c| && all[..|a|] == a
    ensures all[|a|..|a| + |b|] == b && all[|a| + |b|..] == c
  {
    Regroup(a, b, c);
    SliceInside(a, b, c, 0, |b|);
  }

  /** `read_packet`: a command byte, then as many bytes as its struct has. */
  method ReadPacket(stream: Stream) returns (r: Option<Message>)
    modifies stream`input
    ensures r.Some? <==> NextMessage(old(stream.input)).Some?
    ensures r.Some? ==> NextMessage(old(stream.input)).value == (r.value, stream.input)
    ensures |stream.input| <= |old(stream.input)|
  {
    ghost var all := stream.input;
    var first := stream.Read(1);
    if |first| < 1 {
      return None;
    }
    var command := CommandOf(first[0]);
    if command.None? {
      return None;
    }
    var length := BodyLength(command.value);
    var bytes := stream.Read(length);
    ThreeParts(all, first, bytes, stream.input);
    if |bytes| != length {
      return None;
    }
    r := Some(DecodeBody(command.value, bytes));
  }

  lemma NextEncoded(m: Message, rest: seq<byte>)
    ensures NextMessage([CommandByte(CommandIn(m))] + EncodeBody(m) + rest) == Some((m, rest))
  {
    var body := EncodeBody(m);
    var input, end := [CommandByte(CommandIn(m))] + body + rest, 1 + |body|;
    assert input[1..end] == body && input[end..] == rest;
    BodyRoundTrip(m);
  }

  // ---- the realm list ----

  datatype Realm = Realm(realmType: byte, locked: bool, flags: byte, name: seq<byte>, socket: seq<byte>,
                         population: Bytes4, characterCount: byte, timezone: byte, realmId: byte)

  const TRAILER: seq<byte> := [0x10, 0x00]

  function EncodeRealm(r: Realm): (s: seq<byte>)
    ensures |s| == |r.name| + |r.socket| + 12
  {
    [r.realmType, if r.locked then 1 else 0, r.flags] + r.name + [0] + r.socket + [0] + r.population
    + [r.characterCount, r.timezone, r.realmId]
  }

  function EncodedRealms(realms: seq<Realm>): (parts: seq<seq<byte>>)
    ensures |parts| == |realms|
  {
    seq(|realms|, i requires 0 <= i < |realms| => EncodeRealm(realms[i]))
  }

  /** The serialized length of all realms, as a `u64`. */
  function RealmsLength(realms: seq<Realm>): nat {
    |Flatten(EncodedRealms(realms))|
  }

  /** `RealmListResponse::from_realms`: the sum is truncated to 16 bits, then 8 is added in 16 bits. */
  function PacketSize(realms: seq<Realm>): Outcome<u16> {
    var size := RealmsLength(realms) % 0x1_0000 + 8;
    if size < 0x1_0000 then Returned(size) else Panicked
  }

  function RealmListBytes(size: u16, realms: seq<Realm>): seq<byte> {
    ([CommandByte(RealmListCommand)] + PutLe16(size) + [0, 0, 0, 0] + PutLe16(|realms| % 0x1_0000))
    + Flatten(EncodedRealms(realms)) + TRAILER
  }

  /** The reply of `handle_realmlist`; reserving the buffer adds 8 to the size in 16 bits once more. */
  function RealmListPacket(realms: seq<Realm>): Outcome<seq<byte>> {
    match PacketSize(realms)
    case Panicked => Panicked
    case Returned(size) => if size + 8 < 0x1_0000 then Returned(RealmListBytes(size, realms)) else Panicked
  }

  /** The sum in `from_realms`. */
  method MeasureRealms(realms: seq<Realm>) returns (length: nat)
    ensures length == RealmsLength(realms)
  {
    ghost var parts := EncodedRealms(realms);
    length := 0;
    for i := 0 to |realms|
      invariant length == |Flatten(parts[..i])|
    {
      FlattenAround(parts, i);
      length := length + |EncodeRealm(realms[i])|;
    }
    assert parts[..|realms|] == parts;
  }

  /** The loop that appends one realm after the other. */
  method AppendRealms(head: seq<byte>, realms: seq<Realm>) returns (packet: seq<byte>)
    ensures packet == head + Flatten(EncodedRealms(realms))
  {
    ghost var parts := EncodedRealms(realms);
    packet := head;
    for i := 0 to |realms|
      invariant packet == head + Flatten(parts[..i])
    {
      FlattenAround(parts, i);
      packet := packet + EncodeRealm(realms[i]);
    }
    assert parts[..|realms|] == parts;
  }

  method BuildRealmList(realms: seq<Realm>) returns (r: Outcome<seq<byte>>, ghost capacity: nat)
    ensures r == RealmListPacket(realms)
    ensures r.Returned? && RealmsLength(realms) < 0x1_0000 ==> |r.value| <= capacity
  {
    capacity := 0;
    var length := MeasureRealms(realms);
    var size := length % 0x1_0000 + 8;
    if size >= 0x1_0000 || size + 8 >= 0x1_0000 {
      return Panicked, 0;
    }
    capacity := size + 8;
    var head := [CommandByte(RealmListCommand)] + PutLe16(size) + [0, 0, 0, 0] + PutLe16(|realms| % 0x1_0000);
    var packet := AppendRealms(head, realms);
    r := Returned(packet + [0x10, 0x00]);
  }

  /** Both 16-bit fields, and the panic, for any list; a packet is sent whose size field counts the bytes that follow it
      exactly when the realms take at most 65519 bytes. */
  lemma RealmListSizeExact(realms: seq<Realm>)
    ensures var p, n := RealmListPacket(realms), RealmsLength(realms);
            && (p.Panicked? <==> n % 65536 >= 65520)
            && (p.Returned? ==> |p.value| == n + 11
                                && GetLe16(p.value[1..3]) == (n + 8) % 65536 && GetLe16(p.value[7..9]) == |realms| % 65536)
            && (p.Returned? && GetLe16(p.value[1..3]) == |p.value| - 3 <==> n <= 65519)
  {
    var size := RealmsLength(realms) % 0x1_0000 + 8;
    if size + 8 < 0x1_0000 {
      var packet := RealmListBytes(size, realms);
      assert packet[1..3] == PutLe16(size) && packet[7..9] == PutLe16(|realms| % 0x1_0000);
      ShortRoundTrip(size);
      ShortRoundTrip(|realms| % 0x1_0000);
      assert |packet| == RealmsLength(realms) + 11;
    }
  }

  // ---- how a client reads it ----

  function RealmAt(data: seq<byte>, cursor: nat): Decode<(Realm, nat)> {
    match FirstNul(data, cursor + 3)
    case None => Invalid
    case Some(nameEnd) =>
      match FirstNul(data, nameEnd + 1)
      case None => Invalid
      case Some(socketEnd) =>
        if |data| < socketEnd + 8 then Invalid
        else Decoded((RealmFrom(data, cursor, nameEnd, socketEnd), socketEnd + 8))
  }

  function RealmFrom(data: seq<byte>, cursor: nat, nameEnd: nat, socketEnd: nat): Realm
    requires cursor + 3 <= nameEnd < socketEnd && socketEnd + 8 <= |data|
  {
    Realm(data[cursor], data[cursor + 1] != 0, data[cursor + 2], data[cursor + 3..nameEnd], data[nameEnd + 1..socketEnd],
          data[socketEnd + 1..socketEnd + 5], data[socketEnd + 5], data[socketEnd + 6], data[socketEnd + 7])
  }

  function RealmStep(data: seq<byte>): nat -> Decode<(Realm, nat)> {
    cursor => RealmAt(data, cursor)
  }

  /** The realms of a packet whose command, size and trailer are right. */
  function ReadRealmList(packet: seq<byte>): Option<seq<Realm>> {
    if |packet| < 11 || packet[0] != 0x10 || GetLe16(packet[1..3]) != |packet| - 3
       || packet[|packet| - 2..] != [0x10, 0x00]
    then None
    else
      match Repeat(RealmStep(packet[..|packet| - 2]), 9, GetLe16(packet[7..9]))
      case Decoded(realms) => Some(realms)
      case _ => None
  }

  predicate Printable(r: Realm) {
    NulFree(r.name) && NulFree(r.socket)
  }

  /** `s` holds the realm field by field. */
  predicate LaidOut(r: Realm, s: seq<byte>) {
    var n, m := 3 + |r.name|, 4 + |r.name| + |r.socket|;
    && |s| == m + 8
    && s[0] == r.realmType && s[1] == (if r.locked then 1 else 0) && s[2] == r.flags
    && s[3..n] == r.name && s[n] == 0 && s[n + 1..m] == r.socket && s[m] == 0
    && s[m + 1..m + 5] == r.population
    && s[m + 5] == r.characterCount && s[m + 6] == r.timezone && s[m + 7] == r.realmId
  }

  lemma RealmLayout(r: Realm)
    ensures LaidOut(r, EncodeRealm(r))
  {
  }

  /** The two strings of a realm, wherever it sits. */
  lemma RealmStrings(r: Realm, s: seq<byte>, data: seq<byte>, c: nat, nameEnd: nat, socketEnd: nat)
    requires LaidOut(r, s) && c + |s| <= |data| && data[c..c + |s|] == s
    requires nameEnd == c + 3 + |r.name| && socketEnd == nameEnd + 1 + |r.socket|
    ensures data[nameEnd] == 0 && data[socketEnd] == 0
    ensures data[c + 3..nameEnd] == r.name && data[nameEnd + 1..socketEnd] == r.socket
  {
    var n, m := 3 + |r.name|, 4 + |r.name| + |r.socket|;
    SliceSub(data, c, s, 3, n);
    SliceSub(data, c, s, n + 1, m);
    SliceAt(data, c, s, n);
    SliceAt(data, c, s, m);
  }

  lemma RealmFromLayout(r: Realm, s: seq<byte>, data: seq<byte>, c: nat, nameEnd: nat, socketEnd: nat)
    requires LaidOut(r, s) && c + |s| <= |data| && data[c..c + |s|] == s
    requires nameEnd == c + 3 + |r.name| && socketEnd == nameEnd + 1 + |r.socket|
    ensures RealmFrom(data, c, nameEnd, socketEnd) == r
  {
    var m := 4 + |r.name| + |r.socket|;
    RealmStrings(r, s, data, c, nameEnd, socketEnd);
    SliceSub(data, c, s, m + 1, m + 5);
    SliceAt(data, c, s, 0);
    SliceAt(data, c, s, 1);
    SliceAt(data, c, s, 2);
    SliceAt(data, c, s, m + 5);
    SliceAt(data, c, s, m + 6);
    SliceAt(data, c, s, m + 7);
  }

  lemma RealmFound(data: seq<byte>, c: nat, nameEnd: nat, socketEnd: nat)
    requires FirstNul(data, c + 3) == Some(nameEnd) && FirstNul(data, nameEnd + 1) == Some(socketEnd) && socketEnd + 8 <= |data|
    ensures RealmAt(data, c) == Decoded((RealmFrom(data, c, nameEnd, socketEnd), socketEnd + 8))
  {
  }

  lemma RealmAtLayout(r: Realm, s: seq<byte>, data: seq<byte>, c: nat)
    requires Printable(r) && LaidOut(r, s) && c + |s| <= |data| && data[c..c + |s|] == s
    ensures RealmAt(data, c) == Decoded((r, c + |s|))
  {
    var nameEnd := c + 3 + |r.name|;
    var socketEnd := nameEnd + 1 + |r.socket|;
    RealmStrings(r, s, data, c, nameEnd, socketEnd);
    RealmFromLayout(r, s, data, c, nameEnd, socketEnd);
    TextThenNul(data, c + 3, nameEnd, r.name);
    TextThenNul(data, nameEnd + 1, socketEnd, r.socket);
    RealmFound(data, c, nameEnd, socketEnd);
  }

  lemma RealmReadsAt(r: Realm, s: seq<byte>, data: seq<byte>, step: nat -> Decode<(Realm, nat)>, c: nat)
    requires Printable(r) && LaidOut(r, s) && step == RealmStep(data)
    ensures ReadsAt(step, s, r, data, c)
  {
    if c + |s| <= |data| && data[c..c + |s|] == s {
      RealmAtLayout(r, s, data, c);
    }
  }

  lemma RealmReads(r: Realm, s: seq<byte>, data: seq<byte>, step: nat -> Decode<(Realm, nat)>)
    requires Printable(r) && LaidOut(r, s) && step == RealmStep(data)
    ensures Reads(step, s, r, data)
  {
    forall c: nat
      ensures ReadsAt(step, s, r, data, c)
    {
      RealmReadsAt(r, s, data, step, c);
    }
  }

  lemma RealmsReadBack(head: seq<byte>, realms: seq<Realm>, data: seq<byte>)
    requires (forall r :: r in realms ==> Printable(r)) && data == head + Flatten(EncodedRealms(realms))
    ensures Repeat(RealmStep(data), |head|, |realms|) == Decoded(realms)
  {
    var step := RealmStep(data);
    forall k | 0 <= k < |realms|
      ensures Reads(step, EncodedRealms(realms)[k], realms[k], data)
    {
      RealmLayout(realms[k]);
      RealmReads(realms[k], EncodedRealms(realms)[k], data, step);
    }
    AllPartsReadBack(step, head, EncodedRealms(realms), realms, data);
  }

  lemma RealmListLayout(size: u16, realms: seq<Realm>, packet: seq<byte>) returns (body: seq<byte>)
    requires packet == RealmListBytes(size, realms) && |realms| < 0x1_0000
    ensures |packet| >= 11 && packet[0] == CommandByte(RealmListCommand)
    ensures GetLe16(packet[1..3]) == size && GetLe16(packet[7..9]) == |realms|
    ensures packet[..|packet| - 2] == body && packet[|packet| - 2..] == TRAILER
    ensures |body| >= 9 && body == body[..9] + Flatten(EncodedRealms(realms))
  {
    body := packet[..|packet| - 2];
    var flat := Flatten(EncodedRealms(realms));
    var head := [CommandByte(RealmListCommand)] + PutLe16(size) + [0, 0, 0, 0] + PutLe16(|realms|);
    assert packet == head + flat + TRAILER;
    assert body == head + flat && body[..9] == head;
    assert packet[1..3] == PutLe16(size) && packet[7..9] == PutLe16(|realms|);
    ShortRoundTrip(size);
    ShortRoundTrip(|realms|);
  }

  lemma ReadsList(size: u16, realms: seq<Realm>, packet: seq<byte>)
    requires packet == RealmListBytes(size, realms) && size == |packet| - 3 && |realms| < 0x1_0000
    requires forall r :: r in realms ==> Printable(r)
    ensures ReadRealmList(packet) == Some(realms)
  {
    var body := RealmListLayout(size, realms, packet);
    RealmsReadBack(body[..9], realms, body);
    ListFound(packet, body, realms);
  }

  lemma ListFound(packet: seq<byte>, body: seq<byte>, realms: seq<Realm>)
    requires |packet| >= 11 && packet[0] == 0x10 && GetLe16(packet[1..3]) == |packet| - 3 && GetLe16(packet[7..9]) == |realms|
    requires packet[..|packet| - 2] == body && packet[|packet| - 2..] == [0x10, 0x00]
    requires Repeat(RealmStep(body), 9, |realms|) == Decoded(realms)
    ensures ReadRealmList(packet) == Some(realms)
  {
  }

  lemma {:induction false} RealmsAtLeast(parts: seq<seq<byte>>)
    requires forall p :: p in parts ==> |p| >= 12
    ensures |Flatten(parts)| >= 12 * |parts|
  {
    if parts != [] {
      RealmsAtLeast(parts[1..]);
    }
  }

  lemma CountBound(realms: seq<Realm>)
    ensures 12 * |realms| <= RealmsLength(realms)
  {
    RealmsAtLeast(EncodedRealms(realms));
  }

  lemma PacketLength(size: u16, realms: seq<Realm>, length: nat)
    requires length == RealmsLength(realms)
    ensures |RealmListBytes(size, realms)| == length + 11
  {
  }

  lemma ShortPacket(realms: seq<Realm>, length: nat) returns (size: u16, packet: seq<byte>)
    requires length == RealmsLength(realms) <= 65519
    ensures RealmListPacket(realms) == Returned(packet) && packet == RealmListBytes(size, realms)
    ensures size == |packet| - 3 && |realms| < 0x1_0000
  {
    CountBound(realms);
    size := length + 8;
    packet := RealmListBytes(size, realms);
    PacketLength(size, realms, length);
    assert length % 0x1_0000 == length;
  }

  /** Printing a realm list and reading it back gives exactly the realms, for every list whose strings hold no NUL and
      which takes at most 65519 bytes. */
  lemma RealmListRoundTrip(realms: seq<Realm>)
    requires (forall r :: r in realms ==> Printable(r)) && RealmsLength(realms) <= 65519
    ensures RealmListPacket(realms).Returned? && ReadRealmList(RealmListPacket(realms).value) == Some(realms)
  {
    var size, packet := ShortPacket(realms, RealmsLength(realms));
    ReadsList(size, realms, packet);
  }
}
