/** RC4 and the pair of keystreams that hide packet headers (crates/protocol/src/header_crypto.rs).
    HMAC is a parameter. */
module HeaderEncryption {
  import opened Bytes

  type Hmac = (seq<byte>, seq<byte>) -> Bytes20

  const DECRYPT_KEY: Bytes16 :=
    [0xC2, 0xB3, 0x72, 0x3C, 0xC6, 0xAE, 0xD9, 0xB5, 0x34, 0x3C, 0x53, 0xEE, 0x2F, 0x43, 0x67, 0xCE]
  const ENCRYPT_KEY: Bytes16 :=
    [0xCC, 0x98, 0xAE, 0x04, 0xE8, 0x97, 0xEA, 0xCA, 0x12, 0xDD, 0xC0, 0x93, 0x42, 0x91, 0x53, 0x57]
  const DROPPED: nat := 1024

  type Table = t: seq<byte> | |t| == 256 witness seq(256, _ => 0)

  predicate IsPermutation(table: Table) {
    forall i, j :: 0 <= i < j < 256 ==> table[i] != table[j]
  }

  function Identity(): Table {
    seq(256, i requires 0 <= i < 256 => i)
  }

  datatype Rc4 = Rc4(table: Table, i: byte, j: byte)

  function Swap(table: Table, i: byte, j: byte): Table {
    table[i := table[j]][j := table[i]]
  }

  /** Key scheduling from index `i` on. */
  function Schedule(key: seq<byte>, table: Table, i: nat, j: byte): Table
    requires key != [] && i <= 256
    decreases 256 - i, key
  {
    if i == 256 then table
    else
      var next := (j + table[i] + key[i % |key|]) % 256;
      Schedule(key, Swap(table, i, next), i + 1, next)
  }

  function NewRc4(key: seq<byte>): Rc4
    requires key != []
  {
    Rc4(Schedule(key, Identity(), 0, 0), 0, 0)
  }

  function Next(s: Rc4): Rc4 {
    var i := (s.i + 1) % 256;
    var j := (s.j + s.table[i]) % 256;
    Rc4(Swap(s.table, i, j), i, j)
  }

  /** The keystream byte that `Next(before)` has just made available. */
  function Output(after: Rc4): byte {
    var sum: nat := after.table[after.i] as nat + after.table[after.j];
    after.table[sum % 256]
  }

  /** The generator state `n` bytes further on. */
  function Advance(s: Rc4, n: nat): Rc4
    decreases n, s
  {
    if n == 0 then s else Advance(Next(s), n - 1)
  }

  /** Scheduling starts from a permutation of the byte values and only swaps. */
  lemma {:induction false} SchedulePermutes(key: seq<byte>, table: Table, i: nat, j: byte)
    requires key != [] && i <= 256 && IsPermutation(table)
    ensures IsPermutation(Schedule(key, table, i, j))
    decreases 256 - i
  {
    if i < 256 {
      var next := (j + table[i] + key[i % |key|]) % 256;
      SchedulePermutes(key, Swap(table, i, next), i + 1, next);
    }
  }

  /** Whatever the key and however far the stream has advanced, the table is a permutation of the byte values. */
  lemma {:induction false} AlwaysPermutation(key: seq<byte>, n: nat)
    requires key != []
    ensures IsPermutation(Advance(NewRc4(key), n).table)
  {
    if n == 0 {
      SchedulePermutes(key, Identity(), 0, 0);
    } else {
      AlwaysPermutation(key, n - 1);
      AdvanceLast(NewRc4(key), n - 1);
    }
  }

  /** The step can be undone, so two different generator states never merge. */
  function Previous(s: Rc4): Rc4 {
    var table := Swap(s.table, s.i, s.j);
    Rc4(table, (s.i + 255) % 256, (s.j + 256 - table[s.i]) % 256)
  }

  lemma NextIsReversible(s: Rc4)
    ensures Previous(Next(s)) == s
  {
    var t := Next(s);
    assert Swap(t.table, t.i, t.j) == s.table;
  }

  lemma {:induction false} AdvanceInjective(s: Rc4, t: Rc4, n: nat)
    requires Advance(s, n) == Advance(t, n)
    ensures s == t
    decreases n
  {
    if n > 0 {
      AdvanceInjective(Next(s), Next(t), n - 1);
      NextIsReversible(s);
      NextIsReversible(t);
    }
  }

  lemma {:induction false} AdvanceAdd(s: Rc4, m: nat, n: nat)
    ensures Advance(Advance(s, m), n) == Advance(s, m + n)
    decreases m
  {
    if m > 0 {
      AdvanceAdd(Next(s), m - 1, n);
    }
  }

  lemma {:induction false} AdvanceLast(s: Rc4, n: nat)
    ensures Advance(s, n + 1) == Next(Advance(s, n))
  {
    AdvanceAdd(s, n, 1);
    assert Advance(Advance(s, n), 1) == Advance(Next(Advance(s, n)), 0);
  }

  // ---- the same stream seen from outside: byte k of a key's keystream ----

  type Keystream = nat -> byte

  /** Keystream byte `k` counted from `start`. */
  function ByteAt(start: Rc4, k: nat): byte {
    Output(Advance(start, k + 1))
  }

  function KeystreamOf(start: Rc4): Keystream {
    k => ByteAt(start, k)
  }

  // ---- the cipher as its description has it, round by round ----

  /** Table and index after `n` rounds of mixing in the key. */
  function Mixed(key: seq<byte>, n: nat): (Table, byte)
    requires key != [] && n <= 256
  {
    if n == 0 then (seq(256, k requires 0 <= k < 256 => k), 0)
    else
      var (t, j) := Mixed(key, n - 1);
      var i, next := n - 1, (j + t[n - 1] + key[(n - 1) % |key|]) % 256;
      (t[i := t[next]][next := t[i]], next)
  }

  /** Table and second index after `n` bytes have been drawn; the first index is `n` modulo 256. */
  function Drawn(key: seq<byte>, n: nat): (Table, byte)
    requires key != []
  {
    if n == 0 then (Mixed(key, 256).0, 0)
    else
      var (t, j) := Drawn(key, n - 1);
      var i, next := n % 256, (j + t[n % 256]) % 256;
      (t[i := t[next]][next := t[i]], next)
  }

  /** Byte `k` of the keystream of a key. */
  function KeystreamByte(key: seq<byte>, k: nat): byte
    requires key != []
  {
    var (t, j) := Drawn(key, k + 1);
    var sum: nat := t[(k + 1) % 256] as nat + t[j];
    t[sum % 256]
  }

  lemma OneRound(key: seq<byte>, t: Table, i: nat, j: byte, next: byte, table: Table)
    requires key != [] && i < 256 && next == (j + t[i] + key[i % |key|]) % 256 && table == t[i := t[next]][next := t[i]]
    ensures Schedule(key, t, i, j) == Schedule(key, table, i + 1, next)
  {
  }

  lemma MixedStep(key: seq<byte>, n: nat, t: Table, j: byte) returns (before: Table, from: byte)
    requires key != [] && 0 < n <= 256 && (t, j) == Mixed(key, n)
    ensures (before, from) == Mixed(key, n - 1) && Schedule(key, before, n - 1, from) == Schedule(key, t, n, j)
  {
    before, from := Mixed(key, n - 1).0, Mixed(key, n - 1).1;
    OneRound(key, before, n - 1, from, j, t);
  }

  lemma {:induction false} ScheduleMixes(key: seq<byte>, n: nat, t: Table, j: byte)
    requires key != [] && n <= 256 && (t, j) == Mixed(key, n)
    ensures Schedule(key, t, n, j) == NewRc4(key).table
    decreases n
  {
    if n == 0 {
      assert t == Identity();
    } else {
      var before, from := MixedStep(key, n, t, j);
      ScheduleMixes(key, n - 1, before, from);
    }
  }

  lemma OneDraw(t: Table, n: nat, j: byte, next: byte, table: Table)
    requires next == (j + t[(n + 1) % 256]) % 256 && table == t[(n + 1) % 256 := t[next]][next := t[(n + 1) % 256]]
    ensures Next(Rc4(t, n % 256, j)) == Rc4(table, (n + 1) % 256, next)
  {
    assert (n % 256 + 1) % 256 == (n + 1) % 256;
  }

  lemma DrawnNext(key: seq<byte>, n: nat) returns (t: Table, j: byte, next: byte, table: Table)
    requires key != []
    ensures (t, j) == Drawn(key, n) && (table, next) == Drawn(key, n + 1)
    ensures next == (j + t[(n + 1) % 256]) % 256 && table == t[(n + 1) % 256 := t[next]][next := t[(n + 1) % 256]]
  {
    t, j := Drawn(key, n).0, Drawn(key, n).1;
    table, next := Drawn(key, n + 1).0, Drawn(key, n + 1).1;
  }

  lemma {:induction false} AdvanceDraws(key: seq<byte>, n: nat, t: Table, j: byte)
    requires key != [] && (t, j) == Drawn(key, n)
    ensures Advance(NewRc4(key), n) == Rc4(t, n % 256, j)
    decreases n
  {
    if n == 0 {
      DrawsStart(key);
    } else {
      var before, from, next, table := DrawnNext(key, n - 1);
      AdvanceDraws(key, n - 1, before, from);
      DrawsOn(NewRc4(key), n - 1, before, from, next, table);
    }
  }

  lemma DrawsOn(start: Rc4, n: nat, t: Table, j: byte, next: byte, table: Table)
    requires Advance(start, n) == Rc4(t, n % 256, j)
    requires next == (j + t[(n + 1) % 256]) % 256 && table == t[(n + 1) % 256 := t[next]][next := t[(n + 1) % 256]]
    ensures Advance(start, n + 1) == Rc4(table, (n + 1) % 256, next)
  {
    AdvanceLast(start, n);
    OneDraw(t, n, j, next, table);
  }

  lemma DrawsStart(key: seq<byte>)
    requires key != []
    ensures Advance(NewRc4(key), 0) == Rc4(Drawn(key, 0).0, 0, Drawn(key, 0).1)
  {
    ScheduleMixes(key, 256, Mixed(key, 256).0, Mixed(key, 256).1);
    AllMixed(key, Mixed(key, 256).0, Mixed(key, 256).1);
  }

  lemma AllMixed(key: seq<byte>, t: Table, j: byte)
    requires key != [] && Schedule(key, t, 256, j) == NewRc4(key).table
    ensures NewRc4(key) == Rc4(t, 0, 0)
  {
  }

  /** The generator yields the keystream of the description, byte for byte, for every key. */
  lemma KeystreamExact(key: seq<byte>, k: nat)
    requires key != []
    ensures KeystreamOf(NewRc4(key))(k) == KeystreamByte(key, k)
  {
    AdvanceDraws(key, k + 1, Drawn(key, k + 1).0, Drawn(key, k + 1).1);
  }

  /** A reading position in a keystream. */
  datatype Cursor = Cursor(keystream: Keystream, at: nat) {
    function Skip(n: nat): Cursor {
      Cursor(keystream, at + n)
    }
  }

  function Mask(cursor: Cursor, data: seq<byte>): (r: seq<byte>)
    ensures |r| == |data|
  {
    seq(|data|, i requires 0 <= i < |data| => Xor(data[i], cursor.keystream(cursor.at + i)))
  }

  lemma MaskCancels(cursor: Cursor, data: seq<byte>)
    ensures Mask(cursor, Mask(cursor, data)) == data
  {
    forall i | 0 <= i < |data|
      ensures Mask(cursor, Mask(cursor, data))[i] == data[i]
    {
      XorCancel(data[i], cursor.keystream(cursor.at + i));
    }
  }

  /** A masked byte differs from the plain one exactly in the digits of the keystream byte. */
  lemma MaskDigit(cursor: Cursor, data: seq<byte>, i: nat, k: nat)
    requires i < |data| && k < 8
    ensures Bit(Mask(cursor, data)[i], k) == 1 <==> Bit(data[i], k) != Bit(cursor.keystream(cursor.at + i), k)
  {
    assert Mask(cursor, data)[i] == Xor(data[i], cursor.keystream(cursor.at + i));
  }

  function StreamAt(hmac: Hmac, secret: Bytes16, sessionKey: Bytes40, at: nat): Cursor {
    Cursor(KeystreamOf(NewRc4(hmac(secret, sessionKey))), at)
  }

  /** One generator, `at` bytes into the stream of `start`, overwriting a buffer. */
  method ProcessInPlace(ghost start: Rc4, ghost at: nat, s: Rc4, data: array<byte>) returns (s': Rc4)
    requires s == Advance(start, at)
    modifies data
    ensures s' == Advance(start, at + data.Length)
    ensures data[..] == Mask(Cursor(KeystreamOf(start), at), old(data[..]))
    ensures forall j, k :: 0 <= j < data.Length && 0 <= k < 8 ==>
              (Bit(data[j], k) == 1 <==> Bit(old(data[j]), k) != Bit(ByteAt(start, at + j), k))
  {
    s' := s;
    for k := 0 to data.Length
      invariant s' == Advance(start, at + k)
      invariant forall j :: 0 <= j < k ==> data[j] == Xor(old(data[j]), ByteAt(start, at + j))
      invariant forall j :: k <= j < data.Length ==> data[j] == old(data[j])
    {
      AdvanceLast(start, at + k);
      s' := Next(s');
      data[k] := Xor(data[k], Output(s'));
    }
    forall j, k | 0 <= j < data.Length && 0 <= k < 8
      ensures Bit(data[j], k) == 1 <==> Bit(old(data[j]), k) != Bit(ByteAt(start, at + j), k)
    {
      assert data[j] == Xor(old(data[j]), ByteAt(start, at + j));
    }
  }

  class HeaderCrypto {
    var encrypt: Rc4
    var decrypt: Rc4
    ghost const encryptStart: Rc4
    ghost const decryptStart: Rc4
    ghost var encryptAt: nat
    ghost var decryptAt: nat

    /** Each generator is where its start and position say. */
    ghost predicate Valid()
      reads this
    {
      && encrypt == Advance(encryptStart, encryptAt)
      && decrypt == Advance(decryptStart, decryptAt)
    }

    ghost function EncryptCursor(): Cursor
      reads this
    {
      Cursor(KeystreamOf(encryptStart), encryptAt)
    }

    ghost function DecryptCursor(): Cursor
      reads this
    {
      Cursor(KeystreamOf(decryptStart), decryptAt)
    }

    constructor (hmac: Hmac, sessionKey: Bytes40)
      ensures Valid()
      ensures EncryptCursor() == StreamAt(hmac, ENCRYPT_KEY, sessionKey, DROPPED)
      ensures DecryptCursor() == StreamAt(hmac, DECRYPT_KEY, sessionKey, DROPPED)
    {
      var enc := NewRc4(hmac(ENCRYPT_KEY, sessionKey));
      var dec := NewRc4(hmac(DECRYPT_KEY, sessionKey));
      encryptStart, decryptStart := enc, dec;
      var sync := new byte[DROPPED];
      enc := ProcessInPlace(enc, 0, enc, sync);
      dec := ProcessInPlace(dec, 0, dec, sync);
      encrypt, decrypt := enc, dec;
      encryptAt, decryptAt := DROPPED, DROPPED;
    }

    method Encrypt(data: array<byte>)
      requires Valid() && data.Length == 4
      modifies this`encrypt, this`encryptAt, data
      ensures Valid() && EncryptCursor() == old(EncryptCursor()).Skip(4)
      ensures data[..] == Mask(old(EncryptCursor()), old(data[..]))
    {
      encrypt := ProcessInPlace(encryptStart, encryptAt, encrypt, data);
      encryptAt := encryptAt + 4;
    }

    method Decrypt(data: array<byte>)
      requires Valid() && data.Length == 6
      modifies this`decrypt, this`decryptAt, data
      ensures Valid() && DecryptCursor() == old(DecryptCursor()).Skip(6)
      ensures data[..] == Mask(old(DecryptCursor()), old(data[..]))
    {
      decrypt := ProcessInPlace(decryptStart, decryptAt, decrypt, data);
      decryptAt := decryptAt + 6;
    }
  }
}
