/** Framing on the world connection: the read loop (services/world/src/protocol/mod.rs, `read_packets`) and the
    writer (services/world/src/world/session.rs). Only headers are encrypted. */
module WorldFrames {
  import opened Bytes
  import opened HeaderEncryption
  import opened Parsing
  import opened WorldPackets

  // ---- frames from the client ----

  /** Which opcodes exist, and what a body means. */
  datatype Decoder<!T> = Decoder(known: u16 -> bool, decode: (u16, seq<byte>) -> Decode<T>)

  function PacketDecoder(lib: Library): Decoder<ClientPacket> {
    Decoder(lib.known, (opcode, body) => PacketOf(lib, opcode, body))
  }

  datatype Frame = Frame(opcode: u16, padding: u16, body: seq<byte>)

  /** The size field of a client header counts the four opcode bytes and the body. */
  predicate Sendable(f: Frame) {
    |f.body| + 4 < 0x1_0000
  }

  function ClientHeader(f: Frame): (r: seq<byte>)
    requires Sendable(f)
    ensures |r| == 6
  {
    PutBe16(|f.body| + 4) + PutLe16(f.opcode) + PutLe16(f.padding)
  }

  /** A header passed through the keystream, or left alone before there is a session. */
  function Pass(cipher: Option<Cursor>, header: seq<byte>): (r: seq<byte>)
    ensures |r| == |header|
  {
    if cipher.Some? then Mask(cipher.value, header) else header
  }

  function Skip(cipher: Option<Cursor>, n: nat): Option<Cursor> {
    if cipher.Some? then Some(cipher.value.Skip(n)) else None
  }

  datatype ReadResult<T> = ReadResult(packets: Decode<seq<T>>, cipher: Option<Cursor>)

  /** What has been read so far, put in front of what is still to be read. */
  function After<T>(done: seq<T>, r: ReadResult<T>): ReadResult<T> {
    ReadResult(Prepend(done, r.packets), r.cipher)
  }

  lemma AfterTwice<T>(done: seq<T>, packet: T, r: ReadResult<T>)
    ensures After(done, After([packet], r)) == After(done + [packet], r)
  {
    PrependTwice(done, [packet], r.packets);
  }

  /** The packet at the front of a buffer and where the next one starts, given the decrypted header. */
  function FrameAt<T>(decoder: Decoder<T>, header: seq<byte>, buffer: seq<byte>): (r: Decode<(T, nat)>)
    requires |header| == 6
    ensures r.Decoded? ==> 6 <= r.value.1 <= |buffer|
  {
    var opcode, end := GetLe16(header[2..4]), GetBe16(header[..2]) + 2;
    if !decoder.known(opcode) then Invalid
    else if end < 6 || |buffer| < end then Abort
    else match decoder.decode(opcode, buffer[6..end])
      case Decoded(packet) => Decoded((packet, end))
      case Invalid => Invalid
      case Abort => Abort
  }

  /** What the read loop returns for a buffer, and where it leaves the decryption stream. */
  function FramesFrom<T>(decoder: Decoder<T>, cipher: Option<Cursor>, buffer: seq<byte>): ReadResult<T>
    decreases |buffer|
  {
    if buffer == [] then ReadResult(Decoded([]), cipher)
    else if |buffer| < 6 then ReadResult(Abort, cipher)
    else match FrameAt(decoder, Pass(cipher, buffer[..6]), buffer)
      case Decoded((packet, end)) => After([packet], FramesFrom(decoder, Skip(cipher, 6), buffer[end..]))
      case Invalid => ReadResult(Invalid, Skip(cipher, 6))
      case Abort => ReadResult(Abort, Skip(cipher, 6))
  }

  ghost predicate Ready(session: HeaderCrypto?)
    reads if session == null then {} else {session}
  {
    session != null ==> session.Valid()
  }

  ghost function CipherOf(session: HeaderCrypto?): Option<Cursor>
    reads if session == null then {} else {session}
  {
    if session == null then None else Some(session.DecryptCursor())
  }

  method DecryptHeader(session: HeaderCrypto?, six: seq<byte>) returns (header: seq<byte>)
    requires |six| == 6 && Ready(session)
    modifies if session == null then {} else {session}
    ensures Ready(session) && header == Pass(old(CipherOf(session)), six)
    ensures CipherOf(session) == Skip(old(CipherOf(session)), 6)
    ensures session != null ==> session.EncryptCursor() == old(session.EncryptCursor())
  {
    if session == null {
      return six;
    }
    var x := new byte[6](i requires 0 <= i < 6 => six[i]);
    assert x[..] == six;
    session.Decrypt(x);
    header := x[..];
  }

  /** The part of a turn that follows the decryption of the header. */
  method ReadFrame(lib: Library, header: seq<byte>, buffer: seq<byte>) returns (r: Decode<(ClientPacket, nat)>)
    requires |header| == 6
    ensures r == FrameAt(PacketDecoder(lib), header, buffer)
  {
    var size, opcode := GetBe16(header[..2]), GetLe16(header[2..4]);
    if !lib.known(opcode) {
      return Invalid;
    }
    var end: nat := size as int + 2;
    if end < 6 || |buffer| < end {
      return Abort;
    }
    var body := buffer[6..end];
    var packet := ReadPacket(lib, opcode, body);
    assert packet == PacketDecoder(lib).decode(opcode, body);
    if !packet.Decoded? {
      return if packet.Invalid? then Invalid else Abort;
    }
    r := Decoded((packet.value, 6 + |body|));
  }

  /** `read_packets`, for what one read of the socket delivered. */
  method ReadPackets(lib: Library, session: HeaderCrypto?, received: seq<byte>) returns (r: Decode<seq<ClientPacket>>)
    requires |received| <= 2048 && Ready(session)
    modifies if session == null then {} else {session}
    ensures Ready(session)
    ensures received == [] ==> r == Invalid && CipherOf(session) == old(CipherOf(session))
    ensures received != [] ==>
              ReadResult(r, CipherOf(session)) == FramesFrom(PacketDecoder(lib), old(CipherOf(session)), received)
    ensures r.Decoded? ==> r.value != []
    ensures session != null ==> session.EncryptCursor() == old(session.EncryptCursor())
  {
    if received == [] {
      return Invalid;
    }
    ghost var decoder := PacketDecoder(lib);
    ghost var all := FramesFrom(decoder, CipherOf(session), received);
    var buffer, packets := received, [];
    PrependNothing(all.packets);
    while buffer != []
      invariant Ready(session) && all == After(packets, FramesFrom(decoder, CipherOf(session), buffer))
      invariant buffer == [] ==> packets != []
      invariant session != null ==> session.EncryptCursor() == old(session.EncryptCursor())
      decreases |buffer|
    {
      if |buffer| < 6 {
        return Abort;
      }
      var header := DecryptHeader(session, buffer[..6]);
      var frame := ReadFrame(lib, header, buffer);
      if !frame.Decoded? {
        return if frame.Invalid? then Invalid else Abort;
      }
      buffer := buffer[frame.value.1..];
      AfterTwice(packets, frame.value.0, FramesFrom(decoder, CipherOf(session), buffer));
      packets := packets + [frame.value.0];
    }
    r := Decoded(packets);
    assert packets + [] == packets;
  }

  function EncodeFrame(cipher: Option<Cursor>, f: Frame): seq<byte>
    requires Sendable(f)
  {
    Pass(cipher, ClientHeader(f)) + f.body
  }

  predicate AllSendable(frames: seq<Frame>) {
    forall f :: f in frames ==> Sendable(f)
  }

  /** The bytes a client sends for some frames. */
  function EncodeFrames(cipher: Option<Cursor>, frames: seq<Frame>): seq<byte>
    requires AllSendable(frames)
    decreases |frames|
  {
    if frames == [] then [] else EncodeFrame(cipher, frames[0]) + EncodeFrames(Skip(cipher, 6), frames[1..])
  }

  /** The meaning of some frames, up to the first body that cannot be decoded. */
  function DecodeFrames<T>(decoder: Decoder<T>, frames: seq<Frame>): Decode<seq<T>> {
    if frames == [] then Decoded([])
    else match decoder.decode(frames[0].opcode, frames[0].body)
      case Decoded(packet) => Prepend([packet], DecodeFrames(decoder, frames[1..]))
      case Invalid => Invalid
      case Abort => Abort
  }

  /** How many headers that takes. */
  function HeadersRead<T>(decoder: Decoder<T>, frames: seq<Frame>): (n: nat)
    ensures n <= |frames|
  {
    if frames == [] then 0
    else if !decoder.decode(frames[0].opcode, frames[0].body).Decoded? then 1
    else 1 + HeadersRead(decoder, frames[1..])
  }

  lemma PassCancels(cipher: Option<Cursor>, header: seq<byte>)
    ensures Pass(cipher, Pass(cipher, header)) == header
  {
    if cipher.Some? {
      MaskCancels(cipher.value, header);
    }
  }

  lemma SkipTwice(cipher: Option<Cursor>, m: nat, n: nat)
    ensures Skip(Skip(cipher, m), n) == Skip(cipher, m + n)
  {
  }

  lemma ClientHeaderFields(f: Frame)
    requires Sendable(f)
    ensures GetBe16(ClientHeader(f)[..2]) == |f.body| + 4 && GetLe16(ClientHeader(f)[2..4]) == f.opcode
  {
    assert ClientHeader(f)[..2] == PutBe16(|f.body| + 4) && ClientHeader(f)[2..4] == PutLe16(f.opcode);
    ShortRoundTrip(|f.body| + 4);
    ShortRoundTrip(f.opcode);
  }

  lemma FrameLayout(header: seq<byte>, body: seq<byte>, rest: seq<byte>)
    requires |header| == 6
    ensures var buffer, end := header + body + rest, 6 + |body|;
            buffer[..6] == header && buffer[6..end] == body && buffer[end..] == rest
  {
  }

  /** One turn of the loop on a frame followed by anything. */
  lemma OneFrame<T>(decoder: Decoder<T>, cipher: Option<Cursor>, f: Frame, rest: seq<byte>)
    requires Sendable(f) && decoder.known(f.opcode)
    ensures var buffer, end := EncodeFrame(cipher, f) + rest, 6 + |f.body|;
            && |buffer| >= end && buffer[end..] == rest
            && FrameAt(decoder, Pass(cipher, buffer[..6]), buffer)
               == match decoder.decode(f.opcode, f.body)
                  case Decoded(packet) => Decoded((packet, end))
                  case Invalid => Invalid
                  case Abort => Abort
  {
    FrameLayout(Pass(cipher, ClientHeader(f)), f.body, rest);
    PassCancels(cipher, ClientHeader(f));
    ClientHeaderFields(f);
  }

  /** A turn that reads `f` and then continues with `r`. */
  function Turn<T>(decoder: Decoder<T>, next: Option<Cursor>, f: Frame, r: ReadResult<T>): ReadResult<T> {
    match decoder.decode(f.opcode, f.body)
    case Decoded(packet) => After([packet], r)
    case Invalid => ReadResult(Invalid, next)
    case Abort => ReadResult(Abort, next)
  }

  lemma FramesTurn<T>(decoder: Decoder<T>, cipher: Option<Cursor>, f: Frame, rest: seq<byte>, buffer: seq<byte>)
    requires Sendable(f) && decoder.known(f.opcode) && buffer == EncodeFrame(cipher, f) + rest
    ensures FramesFrom(decoder, cipher, buffer)
            == Turn(decoder, Skip(cipher, 6), f, FramesFrom(decoder, Skip(cipher, 6), rest))
  {
    OneFrame(decoder, cipher, f, rest);
  }

  function Meaning<T>(decoder: Decoder<T>, cipher: Option<Cursor>, frames: seq<Frame>): ReadResult<T> {
    ReadResult(DecodeFrames(decoder, frames), Skip(cipher, 6 * HeadersRead(decoder, frames)))
  }

  lemma MeaningTurn<T>(decoder: Decoder<T>, cipher: Option<Cursor>, frames: seq<Frame>)
    requires frames != []
    ensures Meaning(decoder, cipher, frames)
            == Turn(decoder, Skip(cipher, 6), frames[0], Meaning(decoder, Skip(cipher, 6), frames[1..]))
  {
    SkipTwice(cipher, 6, 6 * HeadersRead(decoder, frames[1..]));
  }

  /** Frames written by a client whose keystream agrees with the server's come back as exactly their packets,
      in order, with nothing left over; the server's keystream moves six bytes per header. */
  lemma {:induction false} FramesRoundTrip<T>(decoder: Decoder<T>, cipher: Option<Cursor>, frames: seq<Frame>, buffer: seq<byte>)
    requires AllSendable(frames) && (forall f :: f in frames ==> decoder.known(f.opcode))
    requires buffer == EncodeFrames(cipher, frames)
    ensures FramesFrom(decoder, cipher, buffer)
            == ReadResult(DecodeFrames(decoder, frames), Skip(cipher, 6 * HeadersRead(decoder, frames)))
    decreases |frames|
  {
    if frames != [] {
      var next, tail := Skip(cipher, 6), frames[1..];
      var rest := EncodeFrames(next, tail);
      FramesRoundTrip(decoder, next, tail, rest);
      FramesTurn(decoder, cipher, frames[0], rest, buffer);
      MeaningTurn(decoder, cipher, frames);
      assert FramesFrom(decoder, next, rest) == Meaning(decoder, next, tail);
    }
  }

  // ---- frames that cannot be read ----

  /** Too short for a header: the keystream stays where it was. */
  lemma NoHeader<T>(decoder: Decoder<T>, cipher: Option<Cursor>, buffer: seq<byte>)
    requires 0 < |buffer| < 6
    ensures FramesFrom(decoder, cipher, buffer) == ReadResult(Abort, cipher)
  {
  }

  /** What a buffer comes to, by its first header: an opcode nobody knows, a length that is too small or larger than what was
      read, a body that cannot be decoded, or a packet and then the rest. */
  lemma FirstFrame<T>(decoder: Decoder<T>, cipher: Option<Cursor>, buffer: seq<byte>, header: seq<byte>, size: nat, opcode: u16)
    requires |buffer| >= 6 && header == Pass(cipher, buffer[..6])
    requires size == 256 * (header[0] as nat) + (header[1] as nat) && opcode == (header[2] as nat) + 256 * (header[3] as nat)
    ensures FramesFrom(decoder, cipher, buffer)
            == if !decoder.known(opcode) then ReadResult(Invalid, Skip(cipher, 6))
               else if size < 4 || |buffer| < size + 2 then ReadResult(Abort, Skip(cipher, 6))
               else match decoder.decode(opcode, buffer[6..size + 2])
                 case Invalid => ReadResult(Invalid, Skip(cipher, 6))
                 case Abort => ReadResult(Abort, Skip(cipher, 6))
                 case Decoded(packet) => After([packet], FramesFrom(decoder, Skip(cipher, 6), buffer[size + 2..]))
  {
    assert GetBe16(header[..2]) == size && GetLe16(header[2..4]) == opcode;
  }

  lemma TurnThen<T>(decoder: Decoder<T>, next: Option<Cursor>, frames: seq<Frame>, r: ReadResult<T>)
    requires frames != [] && DecodeFrames(decoder, frames).Decoded?
    ensures DecodeFrames(decoder, frames[1..]).Decoded?
    ensures Turn(decoder, next, frames[0], After(DecodeFrames(decoder, frames[1..]).value, r))
            == After(DecodeFrames(decoder, frames).value, r)
  {
    PrependTwice([decoder.decode(frames[0].opcode, frames[0].body).value], DecodeFrames(decoder, frames[1..]).value, r.packets);
  }

  lemma FrontFrame<T>(decoder: Decoder<T>, cipher: Option<Cursor>, frames: seq<Frame>, rest: seq<byte>, buffer: seq<byte>,
                      later: seq<byte>)
    requires frames != [] && AllSendable(frames) && decoder.known(frames[0].opcode)
    requires buffer == EncodeFrames(cipher, frames) + rest && later == EncodeFrames(Skip(cipher, 6), frames[1..]) + rest
    ensures FramesFrom(decoder, cipher, buffer)
            == Turn(decoder, Skip(cipher, 6), frames[0], FramesFrom(decoder, Skip(cipher, 6), later))
  {
    Regroup(EncodeFrame(cipher, frames[0]), EncodeFrames(Skip(cipher, 6), frames[1..]), rest);
    FramesTurn(decoder, cipher, frames[0], later, buffer);
  }

  /** Good frames in front of anything: the outcome is that of the rest, with their packets in front of it. */
  lemma {:induction false} FramesThen<T>(decoder: Decoder<T>, cipher: Option<Cursor>, frames: seq<Frame>, rest: seq<byte>,
                                         buffer: seq<byte>, end: ReadResult<T>)
    requires AllSendable(frames) && (forall f :: f in frames ==> decoder.known(f.opcode)) && DecodeFrames(decoder, frames).Decoded?
    requires buffer == EncodeFrames(cipher, frames) + rest && end == FramesFrom(decoder, Skip(cipher, 6 * |frames|), rest)
    ensures FramesFrom(decoder, cipher, buffer) == After(DecodeFrames(decoder, frames).value, end)
    decreases |frames|
  {
    if frames == [] {
      assert buffer == rest && Skip(cipher, 0) == cipher;
      PrependNothing(end.packets);
    } else {
      var next, tail := Skip(cipher, 6), frames[1..];
      SkipTwice(cipher, 6, 6 * |tail|);
      TurnThen(decoder, next, frames, end);
      FramesThen(decoder, next, tail, rest, EncodeFrames(next, tail) + rest, end);
      FrontFrame(decoder, cipher, frames, rest, buffer, EncodeFrames(next, tail) + rest);
    }
  }

  // ---- frames to the client ----

  datatype Message = Message(opcode: u16, body: seq<byte>)

  /** The size field of a server header counts the two opcode bytes and the body; it is computed in 16 bits. */
  function ServerHeader(m: Message): (r: Outcome<seq<byte>>)
    ensures r.Returned? ==> |r.value| == 4
  {
    var size := |m.body| % 0x1_0000 + 2;
    if size < 0x1_0000 then Returned(PutBe16(size) + PutLe16(m.opcode)) else Panicked
  }

  /** A header can be computed, whether or not it announces the true length. */
  predicate Headed(m: Message) {
    ServerHeader(m).Returned?
  }

  predicate AllHeaded(messages: seq<Message>) {
    forall m :: m in messages ==> Headed(m)
  }

  /** Bodies whose length the header can carry. */
  predicate Fits(m: Message) {
    |m.body| + 2 < 0x1_0000
  }

  predicate AllFit(messages: seq<Message>) {
    forall m :: m in messages ==> Fits(m)
  }

  /** A header is written, and announces the body's true length, exactly when the body fits. */
  lemma ServerHeaderExact(m: Message)
    ensures (Headed(m) && GetBe16(ServerHeader(m).value[..2]) == |m.body| + 2) <==> Fits(m)
    ensures Headed(m) ==> GetLe16(ServerHeader(m).value[2..4]) == m.opcode
  {
    var size := |m.body| % 0x1_0000 + 2;
    if size < 0x1_0000 {
      var header := PutBe16(size) + PutLe16(m.opcode);
      assert header[..2] == PutBe16(size) && header[2..4] == PutLe16(m.opcode);
      ShortRoundTrip(size);
      ShortRoundTrip(m.opcode);
    }
  }

  function ServerFrame(cipher: Cursor, m: Message): seq<byte>
    requires Headed(m)
  {
    Mask(cipher, ServerHeader(m).value) + m.body
  }

  /** How a client reads the server's stream: decrypt four bytes, then take the announced body. */
  function ClientReads(cipher: Cursor, stream: seq<byte>): Option<seq<Message>>
    decreases |stream|
  {
    if stream == [] then Some([])
    else if |stream| < 4 then None
    else
      var header := Mask(cipher, stream[..4]);
      var end := GetBe16(header[..2]) + 2;
      if end < 4 || |stream| < end then None
      else match ClientReads(cipher.Skip(4), stream[end..])
        case None => None
        case Some(rest) => Some([Message(GetLe16(header[2..4]), stream[4..end])] + rest)
  }

  function ServerStream(cipher: Cursor, messages: seq<Message>): seq<byte>
    requires AllHeaded(messages)
    decreases |messages|
  {
    if messages == [] then [] else ServerFrame(cipher, messages[0]) + ServerStream(cipher.Skip(4), messages[1..])
  }

  lemma OneServerFrame(cipher: Cursor, m: Message, rest: seq<byte>)
    requires Fits(m)
    ensures ClientReads(cipher, ServerFrame(cipher, m) + rest)
            == match ClientReads(cipher.Skip(4), rest)
               case None => None
               case Some(more) => Some([m] + more)
  {
    var header := ServerHeader(m).value;
    var stream, end := ServerFrame(cipher, m) + rest, |m.body| + 4;
    assert stream[..4] == Mask(cipher, header);
    assert stream[4..end] == m.body;
    assert stream[end..] == rest;
    MaskCancels(cipher, header);
    ServerHeaderExact(m);
  }

  /** A header that does not announce the true length makes the client see another body. */
  lemma OversizedFrame(cipher: Cursor, m: Message, rest: seq<byte>, first: Message, more: seq<Message>)
    requires Headed(m) && !Fits(m) && ClientReads(cipher, ServerFrame(cipher, m) + rest) == Some([first] + more)
    ensures first != m
  {
    var header := ServerHeader(m).value;
    var stream := ServerFrame(cipher, m) + rest;
    assert stream[..4] == Mask(cipher, header);
    MaskCancels(cipher, header);
    ServerHeaderExact(m);
    assert first == ([first] + more)[0];
  }

  /** A client in step recovers exactly what the server wrote if and only if every body fits. */
  lemma {:induction false} StreamRoundTrip(cipher: Cursor, messages: seq<Message>)
    requires AllHeaded(messages)
    ensures ClientReads(cipher, ServerStream(cipher, messages)) == Some(messages) <==> AllFit(messages)
    decreases |messages|
  {
    if messages != [] {
      var first, later := messages[0], messages[1..];
      var rest := ServerStream(cipher.Skip(4), later);
      assert [first] + later == messages;
      if Fits(first) {
        StreamRoundTrip(cipher.Skip(4), later);
        OneServerFrame(cipher, first, rest);
      } else if ClientReads(cipher, ServerFrame(cipher, first) + rest) == Some([first] + later) {
        OversizedFrame(cipher, first, rest, first, later);
      }
    }
  }

  lemma {:induction false} StreamAppend(cipher: Cursor, messages: seq<Message>, m: Message)
    requires Headed(m) && AllHeaded(messages)
    ensures ServerStream(cipher, messages + [m]) == ServerStream(cipher, messages) + ServerFrame(cipher.Skip(4 * |messages|), m)
    decreases |messages|
  {
    if messages == [] {
      assert ServerStream(cipher, [m]) == ServerFrame(cipher, m) + ServerStream(cipher.Skip(4), []);
      assert messages + [m] == [m];
    } else {
      var next, first, last := cipher.Skip(4), ServerFrame(cipher, messages[0]), ServerFrame(cipher.Skip(4 * |messages|), m);
      StreamAppend(next, messages[1..], m);
      assert next.Skip(4 * |messages[1..]|) == cipher.Skip(4 * |messages|);
      assert (messages + [m])[1..] == messages[1..] + [m];
      assert first + (ServerStream(next, messages[1..]) + last) == (first + ServerStream(next, messages[1..])) + last;
    }
  }

  const SMSG_AUTH_RESPONSE: u16 := 0x1EE
  const SMSG_ADDON_INFO: u16 := 0x2EF
  const SMSG_CLIENTCACHE_VERSION: u16 := 0x4AB
  const SMSG_TUTORIAL_FLAGS: u16 := 0x0FD

  const AUTH_OK: u32 := 12
  const WOTLK: byte := 2
  const STANDARD_ADDON: u32 := 0x4C1C776D

  /** Eight bytes for each addon, then a zero. */
  function AddonInfo(addons: seq<Addon>): (r: seq<byte>)
    ensures |r| == 8 * |addons| + 1
  {
    if addons == [] then [0]
    else [2, 1, if addons[0].crc != STANDARD_ADDON then 1 else 0, 0, 0, 0, 0, 0] + AddonInfo(addons[1..])
  }

  /** The four packets every session starts with. */
  function Greeting(addons: seq<Addon>): seq<Message> {
    [Message(SMSG_AUTH_RESPONSE, PadLe(AUTH_OK, 4) + PadLe(0, 4) + [0, 0, WOTLK]),
     Message(SMSG_ADDON_INFO, AddonInfo(addons)),
     Message(SMSG_CLIENTCACHE_VERSION, PadLe(0, 4)),
     Message(SMSG_TUTORIAL_FLAGS, PadLe(0, 32))]
  }

  lemma InfoSize(n: nat)
    ensures (8 * n + 1) % 0x1_0000 <= 65529
  {
    var size := 8 * n + 1;
    assert size % 0x1_0000 == 8 * (n - 8192 * (size / 0x1_0000)) + 1;
  }

  lemma InfoFits(m: Message, n: nat)
    requires |m.body| == 8 * n + 1
    ensures Headed(m) && (Fits(m) <==> n <= 8191)
  {
    InfoSize(n);
  }

  lemma ShortFits(m: Message)
    requires |m.body| <= 32
    ensures Headed(m) && Fits(m)
  {
  }

  lemma FourHeaded(a: Message, b: Message, c: Message, d: Message)
    requires Headed(a) && Headed(b) && Headed(c) && Headed(d)
    ensures AllHeaded([a, b, c, d])
  {
  }

  lemma FourFit(a: Message, b: Message, c: Message, d: Message)
    ensures AllFit([a, b, c, d]) <==> Fits(a) && Fits(b) && Fits(c) && Fits(d)
  {
    var all := [a, b, c, d];
    assert all[0] == a && all[1] == b && all[2] == c && all[3] == d;
  }

  /** The greeting never overflows a header, but it fits its headers only up to 8191 addons. */
  lemma GreetingFits(addons: seq<Addon>)
    ensures AllHeaded(Greeting(addons)) && (AllFit(Greeting(addons)) <==> |addons| <= 8191)
  {
    var g := Greeting(addons);
    InfoFits(g[1], |addons|);
    ShortFits(g[0]);
    ShortFits(g[2]);
    ShortFits(g[3]);
    FourHeaded(g[0], g[1], g[2], g[3]);
    FourFit(g[0], g[1], g[2], g[3]);
  }

  /** What is written of some messages: everything before the first whose header overflows. */
  function Writable(messages: seq<Message>): (r: seq<Message>)
    ensures AllHeaded(r)
  {
    if messages == [] || !Headed(messages[0]) then [] else [messages[0]] + Writable(messages[1..])
  }

  lemma {:induction false} WritableTo(messages: seq<Message>, i: nat)
    requires i <= |messages| && AllHeaded(messages[..i]) && (i < |messages| ==> !Headed(messages[i]))
    ensures Writable(messages) == messages[..i]
    decreases i
  {
    if i > 0 {
      assert messages[0] == messages[..i][0] && messages[1..][..i - 1] == messages[..i][1..];
      WritableTo(messages[1..], i - 1);
    }
  }

  lemma {:induction false} WritableMore(messages: seq<Message>, i: nat)
    requires i < |messages| && AllHeaded(messages[..i + 1])
    ensures i < |Writable(messages)| && Writable(messages)[..i] == messages[..i]
    decreases i
  {
    assert messages[0] == messages[..i + 1][0];
    if i > 0 {
      assert messages[1..][..i] == messages[..i + 1][1..];
      WritableMore(messages[1..], i - 1);
      assert messages[..i] == [messages[0]] + messages[1..][..i - 1];
    }
  }

  /** The writing half of a session: the keystreams and everything handed to the socket. */
  class Session {
    const encryption: HeaderCrypto
    var stream: seq<byte>

    constructor (hmac: Hmac, sessionKey: Bytes40)
      ensures fresh(encryption) && encryption.Valid() && stream == []
      ensures encryption.EncryptCursor() == StreamAt(hmac, ENCRYPT_KEY, sessionKey, DROPPED)
      ensures encryption.DecryptCursor() == StreamAt(hmac, DECRYPT_KEY, sessionKey, DROPPED)
    {
      encryption := new HeaderCrypto(hmac, sessionKey);
      stream := [];
    }

    /** `write_packet`: panics without touching anything when the 16-bit size overflows. If the write fails (`None`), the
        keystream has moved on all the same. */
    method WritePacket(m: Message, fails: bool) returns (r: Outcome<Option<nat>>)
      requires encryption.Valid()
      modifies this`stream, encryption`encrypt, encryption`encryptAt
      ensures encryption.Valid() && (r.Panicked? <==> !Headed(m))
      ensures r.Panicked? ==> stream == old(stream) && encryption.EncryptCursor() == old(encryption.EncryptCursor())
      ensures r.Returned? ==>
                && r.value == (if fails then None else Some(|m.body| + 4))
                && encryption.EncryptCursor() == old(encryption.EncryptCursor()).Skip(4)
                && stream == old(stream) + (if fails then [] else ServerFrame(old(encryption.EncryptCursor()), m))
    {
      var plain := ServerHeader(m);
      if plain.Panicked? {
        return Panicked;
      }
      var headers := new byte[4](i requires 0 <= i < 4 => plain.value[i]);
      assert headers[..] == plain.value;
      encryption.Encrypt(headers);
      if fails {
        return Returned(None);
      }
      var packet := headers[..] + m.body;
      stream := stream + packet;
      r := Returned(Some(|packet|));
    }

    /** Any run of packets, in order, up to a failing write (number `failure`) or an overflowing header: the stream grows
        by exactly the encrypted frames of those written before. */
    method WriteAll(messages: seq<Message>, failure: Option<nat>) returns (r: Outcome<bool>)
      requires encryption.Valid()
      modifies this`stream, encryption`encrypt, encryption`encryptAt
      ensures encryption.Valid()
      ensures var start, n := old(encryption.EncryptCursor()), |Writable(messages)|;
              if failure.Some? && failure.value < n then
                && r == Returned(false) && encryption.EncryptCursor() == start.Skip(4 * failure.value + 4)
                && stream == old(stream) + ServerStream(start, Writable(messages)[..failure.value])
              else
                && r == (if AllHeaded(messages) then Returned(true) else Panicked)
                && encryption.EncryptCursor() == start.Skip(4 * n)
                && stream == old(stream) + ServerStream(start, Writable(messages))
    {
      ghost var start, was := encryption.EncryptCursor(), stream;
      for i := 0 to |messages|
        invariant encryption.Valid() && AllHeaded(messages[..i]) && (failure.Some? ==> i <= failure.value)
        invariant encryption.EncryptCursor() == start.Skip(4 * i)
        invariant stream == was + ServerStream(start, messages[..i])
      {
        var written := WritePacket(messages[i], failure == Some(i));
        if written.Panicked? {
          WritableTo(messages, i);
          assert messages[i] in messages;
          return Panicked;
        }
        assert messages[..i + 1] == messages[..i] + [messages[i]];
        if failure == Some(i) {
          WritableMore(messages, i);
          return Returned(false);
        }
        StreamNext(start, was, messages, i);
      }
      assert messages[..|messages|] == messages;
      WritableTo(messages, |messages|);
      return Returned(true);
    }

    /** `finalize`: four packets, before anyone else can reach the session. It never panics. */
    method Finalize(addons: seq<Addon>, failure: Option<nat>, ghost greeting: seq<Message>) returns (ok: bool)
      requires encryption.Valid() && greeting == Greeting(addons)
      modifies this`stream, encryption`encrypt, encryption`encryptAt
      ensures AllHeaded(greeting) && encryption.Valid() && (ok <==> failure.None? || failure.value >= |greeting|)
      ensures ok ==>
                && encryption.EncryptCursor() == old(encryption.EncryptCursor()).Skip(16)
                && stream == old(stream) + ServerStream(old(encryption.EncryptCursor()), greeting)
      ensures !ok ==>
                && encryption.EncryptCursor() == old(encryption.EncryptCursor()).Skip(4 * failure.value + 4)
                && stream == old(stream) + ServerStream(old(encryption.EncryptCursor()), greeting[..failure.value])
    {
      var packets := Greeting(addons);
      GreetingWritable(addons, packets);
      var r := WriteAll(packets, failure);
      ok := r.value;
    }
  }

  lemma GreetingWritable(addons: seq<Addon>, greeting: seq<Message>)
    requires greeting == Greeting(addons)
    ensures |greeting| == 4 && AllHeaded(greeting) && Writable(greeting) == greeting
  {
    GreetingFits(addons);
    assert greeting[..4] == greeting;
    WritableTo(greeting, 4);
  }

  /** A client reads its greeting back exactly when it announced at most 8191 addons. */
  lemma GreetingReadable(addons: seq<Addon>, start: Cursor, greeting: seq<Message>)
    requires greeting == Greeting(addons)
    ensures AllHeaded(greeting)
    ensures ClientReads(start, ServerStream(start, greeting)) == Some(greeting) <==> |addons| <= 8191
  {
    GreetingFits(addons);
    StreamRoundTrip(start, greeting);
  }

  lemma StreamNext(start: Cursor, was: seq<byte>, messages: seq<Message>, i: nat)
    requires i < |messages| && AllHeaded(messages[..i + 1])
    requires messages[..i + 1] == messages[..i] + [messages[i]]
    ensures (was + ServerStream(start, messages[..i])) + ServerFrame(start.Skip(4 * i), messages[i])
            == was + ServerStream(start, messages[..i + 1])
  {
    StreamAppend(start, messages[..i], messages[i]);
  }

  // ---- both ends over a whole connection ----

  datatype Event = Send(message: Message) | Receive(frames: seq<Frame>)

  /** The two streams of each party. */
  datatype Party = Party(encrypt: Cursor, decrypt: Cursor)

  datatype Link<T> = Link(server: Party, client: Party, clientGot: seq<Message>, serverGot: seq<T>)

  /** The client mirrors the server: it encrypts with what the server decrypts with. */
  function Connect<T>(down: Cursor, up: Cursor): Link<T> {
    Link(Party(down, up), Party(up, down), [], [])
  }

  predicate Legal<T>(decoder: Decoder<T>, e: Event) {
    match e
    case Send(m) => Fits(m)
    case Receive(frames) =>
      AllSendable(frames) && (forall f :: f in frames ==> decoder.known(f.opcode)) && DecodeFrames(decoder, frames).Decoded?
  }

  /** One exchange: whoever cannot make sense of what arrives gets nothing. */
  function Exchange<T>(decoder: Decoder<T>, link: Link<T>, e: Event): Link<T>
    requires Legal(decoder, e)
  {
    match e
    case Send(m) =>
      var read := ClientReads(link.client.decrypt, ServerFrame(link.server.encrypt, m));
      link.(server := link.server.(encrypt := link.server.encrypt.Skip(4)),
            client := link.client.(decrypt := link.client.decrypt.Skip(4)),
            clientGot := link.clientGot + if read.Some? then read.value else [])
    case Receive(frames) =>
      var read := FramesFrom(decoder, Some(link.server.decrypt), EncodeFrames(Some(link.client.encrypt), frames));
      link.(server := link.server.(decrypt := if read.cipher.Some? then read.cipher.value else link.server.decrypt),
            client := link.client.(encrypt := link.client.encrypt.Skip(6 * |frames|)),
            serverGot := link.serverGot + if read.packets.Decoded? then read.packets.value else [])
  }

  function Run<T>(decoder: Decoder<T>, link: Link<T>, events: seq<Event>): Link<T>
    requires forall e :: e in events ==> Legal(decoder, e)
  {
    if events == [] then link else Exchange(decoder, Run(decoder, link, events[..|events| - 1]), events[|events| - 1])
  }

  function SentBy(e: Event): seq<Message> {
    match e case Send(m) => [m] case Receive(_) => []
  }

  function FramesBy(e: Event): seq<Frame> {
    match e case Send(_) => [] case Receive(frames) => frames
  }

  function Sent(events: seq<Event>): seq<Message> {
    if events == [] then [] else Sent(events[..|events| - 1]) + SentBy(events[|events| - 1])
  }

  function Frames(events: seq<Event>): seq<Frame> {
    if events == [] then [] else Frames(events[..|events| - 1]) + FramesBy(events[|events| - 1])
  }

  /** The link started from `first` after `sent` to the client and `frames` to the server. */
  ghost predicate InStep<T>(decoder: Decoder<T>, first: Link<T>, link: Link<T>, sent: seq<Message>, frames: seq<Frame>) {
    && link.server.encrypt == link.client.decrypt == first.server.encrypt.Skip(4 * |sent|)
    && link.server.decrypt == link.client.encrypt == first.server.decrypt.Skip(6 * |frames|)
    && link.clientGot == sent
    && DecodeFrames(decoder, frames) == Decoded(link.serverGot)
  }

  lemma {:induction false} DecodeFramesAppend<T>(decoder: Decoder<T>, x: seq<Frame>, y: seq<Frame>)
    requires DecodeFrames(decoder, x).Decoded? && DecodeFrames(decoder, y).Decoded?
    ensures DecodeFrames(decoder, x + y) == Decoded(DecodeFrames(decoder, x).value + DecodeFrames(decoder, y).value)
  {
    if x == [] {
      assert x + y == y;
      PrependNothing(DecodeFrames(decoder, y));
    } else {
      DecodeFramesAppend(decoder, x[1..], y);
      assert (x + y)[1..] == x[1..] + y;
      var packet := decoder.decode(x[0].opcode, x[0].body);
      PrependTwice([packet.value], DecodeFrames(decoder, x[1..]).value, DecodeFrames(decoder, y));
    }
  }

  lemma {:induction false} AllHeadersRead<T>(decoder: Decoder<T>, frames: seq<Frame>)
    requires DecodeFrames(decoder, frames).Decoded?
    ensures HeadersRead(decoder, frames) == |frames|
  {
    if frames != [] {
      AllHeadersRead(decoder, frames[1..]);
    }
  }

  lemma SendInStep<T>(decoder: Decoder<T>, first: Link<T>, link: Link<T>, sent: seq<Message>, frames: seq<Frame>, m: Message)
    requires Fits(m) && InStep(decoder, first, link, sent, frames)
    ensures InStep(decoder, first, Exchange(decoder, link, Send(m)), sent + [m], frames)
  {
    OneServerFrame(link.server.encrypt, m, []);
    assert ServerFrame(link.server.encrypt, m) + [] == ServerFrame(link.server.encrypt, m);
    assert [m] + [] == [m];
  }

  lemma ReceiveInStep<T>(decoder: Decoder<T>, first: Link<T>, link: Link<T>, sent: seq<Message>, frames: seq<Frame>,
                         more: seq<Frame>)
    requires Legal(decoder, Receive(more)) && InStep(decoder, first, link, sent, frames)
    ensures InStep(decoder, first, Exchange(decoder, link, Receive(more)), sent, frames + more)
  {
    FramesRoundTrip(decoder, Some(link.server.decrypt), more, EncodeFrames(Some(link.server.decrypt), more));
    AllHeadersRead(decoder, more);
    DecodeFramesAppend(decoder, frames, more);
  }

  lemma StepInStep<T>(decoder: Decoder<T>, first: Link<T>, link: Link<T>, sent: seq<Message>, frames: seq<Frame>, e: Event)
    requires Legal(decoder, e) && InStep(decoder, first, link, sent, frames)
    ensures InStep(decoder, first, Exchange(decoder, link, e), sent + SentBy(e), frames + FramesBy(e))
  {
    match e
    case Send(m) =>
      SendInStep(decoder, first, link, sent, frames, m);
      assert frames + [] == frames;
    case Receive(more) =>
      ReceiveInStep(decoder, first, link, sent, frames, more);
      assert sent + [] == sent;
  }

  lemma {:induction false} RunInStep<T>(decoder: Decoder<T>, first: Link<T>, events: seq<Event>)
    requires forall e :: e in events ==> Legal(decoder, e)
    requires InStep(decoder, first, first, [], [])
    ensures InStep(decoder, first, Run(decoder, first, events), Sent(events), Frames(events))
  {
    if events != [] {
      var front, last := events[..|events| - 1], events[|events| - 1];
      RunInStep(decoder, first, front);
      StepInStep(decoder, first, Run(decoder, first, front), Sent(front), Frames(front), last);
    }
  }

  /** Over every interleaving of sends and reads, with mirrored client keys: after n messages and m frames the
      server's streams stand at 1024 + 4n and 1024 + 6m, the client's stand with them, and both ends have
      recovered everything sent to them. */
  lemma AlwaysInStep<T>(decoder: Decoder<T>, down: Cursor, up: Cursor, events: seq<Event>)
    requires down.at == DROPPED && up.at == DROPPED
    requires forall e :: e in events ==> Legal(decoder, e)
    ensures var link := Run(decoder, Connect(down, up), events);
            && link.server.encrypt == link.client.decrypt == Cursor(down.keystream, 1024 + 4 * |Sent(events)|)
            && link.server.decrypt == link.client.encrypt == Cursor(up.keystream, 1024 + 6 * |Frames(events)|)
            && link.clientGot == Sent(events)
            && DecodeFrames(decoder, Frames(events)) == Decoded(link.serverGot)
  {
    RunInStep(decoder, Connect(down, up), events);
  }
}
