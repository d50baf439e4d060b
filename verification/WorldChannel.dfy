/** The writing half of a session with encryption and writing as two separate steps
    (services/world/src/world/session.rs, `write_packet`): what the wire holds while a frame is between the two. */
module WorldChannel {
  import opened Bytes
  import opened HeaderEncryption
  import opened Parsing
  import opened WorldFrames

  /** An encrypted frame on its way to the socket, and where in the keystream its header was encrypted. */
  datatype Outgoing = Outgoing(at: nat, message: Message, frame: seq<byte>)

  /** `marks` records, for every frame on the wire, the keystream position of its header. */
  datatype Channel = Channel(start: Cursor, cipher: Cursor, marks: seq<nat>, sent: seq<Message>, wire: seq<byte>, failed: bool)

  function Open(start: Cursor): Channel {
    Channel(start, start, [], [], [], false)
  }

  function Encrypting(ch: Channel, m: Message): Outgoing
    requires Headed(m)
  {
    Outgoing(ch.cipher.at, m, ServerFrame(ch.cipher, m))
  }

  function Encrypted(ch: Channel): Channel {
    ch.(cipher := ch.cipher.Skip(4))
  }

  function Written(ch: Channel, o: Outgoing): Channel {
    ch.(marks := ch.marks + [o.at], sent := ch.sent + [o.message], wire := ch.wire + o.frame)
  }

  function Failed(ch: Channel): Channel {
    ch.(failed := true)
  }

  /** Positions in increasing order, each header's four bytes used before the next begins. */
  ghost predicate Ascending(marks: seq<nat>, limit: nat) {
    marks != [] ==>
      var last := |marks| - 1;
      marks[last] + 4 <= limit && Ascending(marks[..last], marks[last])
  }

  /** The wire holds these messages, the header of each encrypted at its mark. */
  ghost predicate Carries(keystream: Keystream, marks: seq<nat>, sent: seq<Message>, wire: seq<byte>) {
    if sent == [] then marks == [] && wire == []
    else
      var last := |sent| - 1;
      && |marks| == |sent| && Headed(sent[last])
      && var frame := ServerFrame(Cursor(keystream, marks[last]), sent[last]);
         && |frame| <= |wire| && wire[|wire| - |frame|..] == frame
         && Carries(keystream, marks[..last], sent[..last], wire[..|wire| - |frame|])
  }

  /** The wire is exactly the encrypted stream of these messages, and the next header comes right after. */
  ghost predicate Contiguous(start: Cursor, sent: seq<Message>, wire: seq<byte>, next: nat) {
    && next == start.at + 4 * |sent|
    && AllHeaded(sent) && wire == ServerStream(start, sent)
  }

  lemma ContiguousNext(start: Cursor, sent: seq<Message>, wire: seq<byte>, m: Message, at: nat, frame: seq<byte>)
    requires Contiguous(start, sent, wire, at) && Headed(m) && frame == ServerFrame(Cursor(start.keystream, at), m)
    ensures Contiguous(start, sent + [m], wire + frame, at + 4)
  {
    StreamAppend(start, sent, m);
  }

  /** What is on the wire, given the frame still held by a task, if any. */
  ghost predicate InOrder(ch: Channel, held: Option<Outgoing>) {
    var at := if held.Some? then held.value.at else ch.cipher.at;
    && ch.cipher == Cursor(ch.start.keystream, if held.Some? then at + 4 else at)
    && (held.Some? ==> Headed(held.value.message))
    && (held.Some? ==> held.value.frame == ServerFrame(Cursor(ch.start.keystream, at), held.value.message))
    && Ascending(ch.marks, at)
    && Carries(ch.start.keystream, ch.marks, ch.sent, ch.wire)
    && (!ch.failed ==> Contiguous(ch.start, ch.sent, ch.wire, at))
  }

  lemma EncryptInOrder(ch: Channel, m: Message)
    requires InOrder(ch, None) && Headed(m)
    ensures InOrder(Encrypted(ch), Some(Encrypting(ch, m)))
  {
  }

  lemma CarriesNext(keystream: Keystream, marks: seq<nat>, sent: seq<Message>, wire: seq<byte>, at: nat, m: Message, frame: seq<byte>)
    requires Carries(keystream, marks, sent, wire) && Headed(m) && frame == ServerFrame(Cursor(keystream, at), m)
    ensures Carries(keystream, marks + [at], sent + [m], wire + frame)
  {
    assert (marks + [at])[..|marks|] == marks && (sent + [m])[..|sent|] == sent;
    assert (wire + frame)[..|wire|] == wire && (wire + frame)[|wire|..] == frame;
    assert sent == [] ==> marks == [];
  }

  lemma WriteInOrder(ch: Channel, o: Outgoing)
    requires InOrder(ch, Some(o))
    ensures InOrder(Written(ch, o), None)
  {
    CarriesNext(ch.start.keystream, ch.marks, ch.sent, ch.wire, o.at, o.message, o.frame);
    assert (ch.marks + [o.at])[..|ch.marks|] == ch.marks;
    if !ch.failed {
      ContiguousNext(ch.start, ch.sent, ch.wire, o.message, o.at, o.frame);
    }
  }

  lemma {:induction false} AscendingLimit(marks: seq<nat>, limit: nat, higher: nat)
    requires Ascending(marks, limit) && limit <= higher
    ensures Ascending(marks, higher)
  {
  }

  lemma FailInOrder(ch: Channel, o: Outgoing)
    requires InOrder(ch, Some(o))
    ensures InOrder(Failed(ch), None)
  {
    AscendingLimit(ch.marks, o.at, o.at + 4);
  }

  // ---- what a client reads, failed writes included ----

  /** The frames of some messages one after the other, each header encrypted at its mark. */
  function Layout(keystream: Keystream, marks: seq<nat>, sent: seq<Message>): seq<byte>
    requires |marks| == |sent| && AllHeaded(sent)
    decreases |sent|
  {
    if sent == [] then [] else ServerFrame(Cursor(keystream, marks[0]), sent[0]) + Layout(keystream, marks[1..], sent[1..])
  }

  lemma {:induction false} LayoutAppend(keystream: Keystream, marks: seq<nat>, sent: seq<Message>, at: nat, m: Message)
    requires |marks| == |sent| && AllHeaded(sent) && Headed(m)
    ensures Layout(keystream, marks + [at], sent + [m]) == Layout(keystream, marks, sent) + ServerFrame(Cursor(keystream, at), m)
    decreases |sent|
  {
    if sent != [] {
      LayoutAppend(keystream, marks[1..], sent[1..], at, m);
      assert (sent + [m])[1..] == sent[1..] + [m] && (marks + [at])[1..] == marks[1..] + [at];
      Regroup(ServerFrame(Cursor(keystream, marks[0]), sent[0]), Layout(keystream, marks[1..], sent[1..]),
              ServerFrame(Cursor(keystream, at), m));
    }
  }

  lemma {:induction false} CarriesLayout(keystream: Keystream, marks: seq<nat>, sent: seq<Message>, wire: seq<byte>)
    requires Carries(keystream, marks, sent, wire)
    ensures |marks| == |sent| && AllHeaded(sent) && wire == Layout(keystream, marks, sent)
  {
    if sent != [] {
      var last := |sent| - 1;
      var frame := ServerFrame(Cursor(keystream, marks[last]), sent[last]);
      CarriesLayout(keystream, marks[..last], sent[..last], wire[..|wire| - |frame|]);
      LayoutAppend(keystream, marks[..last], sent[..last], marks[last], sent[last]);
      assert marks[..last] + [marks[last]] == marks && sent[..last] + [sent[last]] == sent;
    }
  }

  /** The four keystream bytes at two positions agree. */
  predicate SameBytes(keystream: Keystream, a: nat, b: nat) {
    && keystream(a) == keystream(b) && keystream(a + 1) == keystream(b + 1)
    && keystream(a + 2) == keystream(b + 2) && keystream(a + 3) == keystream(b + 3)
  }

  /** A client that starts at `at` decrypts every header with the bytes it was encrypted with. */
  predicate Aligned(keystream: Keystream, at: nat, marks: seq<nat>) {
    forall k :: 0 <= k < |marks| ==> SameBytes(keystream, marks[k], at + 4 * k)
  }

  lemma SameMask(keystream: Keystream, a: nat, b: nat, header: seq<byte>)
    requires |header| == 4
    ensures Mask(Cursor(keystream, b), Mask(Cursor(keystream, a), header)) == header <==> SameBytes(keystream, a, b)
    ensures SameBytes(keystream, a, b) ==> Mask(Cursor(keystream, a), header) == Mask(Cursor(keystream, b), header)
  {
    var masked := Mask(Cursor(keystream, a), header);
    var back := Mask(Cursor(keystream, b), masked);
    XorExact(header[0], keystream(a), keystream(b));
    XorExact(header[1], keystream(a + 1), keystream(b + 1));
    XorExact(header[2], keystream(a + 2), keystream(b + 2));
    XorExact(header[3], keystream(a + 3), keystream(b + 3));
    FourBytes(back, header);
    FourBytes(masked, Mask(Cursor(keystream, b), header));
  }

  lemma FourBytes(x: seq<byte>, y: seq<byte>)
    requires |x| == |y| == 4
    ensures x == y <==> x[0] == y[0] && x[1] == y[1] && x[2] == y[2] && x[3] == y[3]
  {
  }

  /** What a client makes of a frame whose header may have been encrypted elsewhere in the keystream. */
  lemma ShiftedFrame(keystream: Keystream, mark: nat, at: nat, m: Message, rest: seq<byte>, more: seq<Message>)
    requires Headed(m)
    ensures ClientReads(Cursor(keystream, at), ServerFrame(Cursor(keystream, mark), m) + rest) == Some([m] + more)
            <==> Fits(m) && SameBytes(keystream, mark, at) && ClientReads(Cursor(keystream, at + 4), rest) == Some(more)
  {
    var stream := ServerFrame(Cursor(keystream, mark), m) + rest;
    var header := ServerHeader(m).value;
    var seen := Mask(Cursor(keystream, at), stream[..4]);
    assert stream[..4] == Mask(Cursor(keystream, mark), header);
    SameMask(keystream, mark, at, header);
    if Fits(m) && SameBytes(keystream, mark, at) {
      OneServerFrame(Cursor(keystream, at), m, rest);
      FirstThen(m, ClientReads(Cursor(keystream, at + 4), rest), more);
    } else if ClientReads(Cursor(keystream, at), stream) == Some([m] + more) {
      ReadsHeader(Cursor(keystream, at), stream, m, more);
    }
  }

  lemma FirstThen(m: Message, rest: Option<seq<Message>>, more: seq<Message>)
    ensures (match rest case None => None case Some(x) => Some([m] + x)) == Some([m] + more) <==> rest == Some(more)
  {
    if rest.Some? {
      assert ([m] + rest.value)[1..] == rest.value && ([m] + more)[1..] == more;
    }
  }

  /** A message that was read was announced by the header seen. */
  lemma ReadsHeader(cursor: Cursor, stream: seq<byte>, m: Message, more: seq<Message>)
    requires |stream| >= 4 && ClientReads(cursor, stream) == Some([m] + more)
    ensures Fits(m) && Mask(cursor, stream[..4]) == ServerHeader(m).value
  {
    var seen := Mask(cursor, stream[..4]);
    var end := GetBe16(seen[..2]) + 2;
    assert ([m] + more)[0] == m;
    HeaderOf(seen, m, stream[4..end]);
  }

  lemma HeaderOf(seen: seq<byte>, m: Message, body: seq<byte>)
    requires |seen| == 4 && m == Message(GetLe16(seen[2..4]), body) && |body| + 2 == GetBe16(seen[..2])
    ensures Fits(m) && seen == ServerHeader(m).value
  {
    ShortBytes(seen[..2]);
    ShortBytes(seen[2..4]);
    assert seen == seen[..2] + seen[2..4];
  }

  /** The exact condition: a client reads back what was sent if and only if every body fits its header and every header was
      encrypted with the bytes the client decrypts it with. */
  lemma {:induction false} LayoutReadBack(keystream: Keystream, at: nat, marks: seq<nat>, sent: seq<Message>)
    requires |marks| == |sent| && AllHeaded(sent)
    ensures ClientReads(Cursor(keystream, at), Layout(keystream, marks, sent)) == Some(sent)
            <==> AllFit(sent) && Aligned(keystream, at, marks)
    decreases |sent|
  {
    if sent != [] {
      LayoutReadBack(keystream, at + 4, marks[1..], sent[1..]);
      ShiftedFrame(keystream, marks[0], at, sent[0], Layout(keystream, marks[1..], sent[1..]), sent[1..]);
      assert [sent[0]] + sent[1..] == sent;
      AlignedNext(keystream, at, marks);
    }
  }

  lemma AlignedNext(keystream: Keystream, at: nat, marks: seq<nat>)
    requires marks != []
    ensures Aligned(keystream, at, marks) <==> SameBytes(keystream, marks[0], at) && Aligned(keystream, at + 4, marks[1..])
  {
    if SameBytes(keystream, marks[0], at) && Aligned(keystream, at + 4, marks[1..]) {
      forall k | 0 <= k < |marks|
        ensures SameBytes(keystream, marks[k], at + 4 * k)
      {
        if k > 0 {
          assert SameBytes(keystream, marks[1..][k - 1], at + 4 + 4 * (k - 1));
        }
      }
    }
    if Aligned(keystream, at, marks) {
      forall k | 0 <= k < |marks| - 1
        ensures SameBytes(keystream, marks[1..][k], at + 4 + 4 * k)
      {
        assert SameBytes(keystream, marks[k + 1], at + 4 * (k + 1));
      }
    }
  }
}
