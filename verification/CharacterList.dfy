/** The character list a client asks for (services/world/src/world/session.rs, `send_packet`): how it is serialized, how a
    client reads it, and how long it gets. */
module CharacterList {
  import opened Bytes
  import opened Parsing
  import opened Characters

  /** Guild, flags, pet data and 23 empty items of nine bytes. */
  const REST: nat := 232

  function EncodeListed(row: Listed): (r: seq<byte>)
    ensures |r| == |row.character.name| + 270
  {
    PadLe(row.id, 8) + row.character.name + [0] + row.character.looks + [row.character.level] + row.character.place
    + seq(REST, _ => 0)
  }

  function EncodedRows(rows: seq<Listed>): (parts: seq<seq<byte>>)
    ensures |parts| == |rows|
  {
    seq(|rows|, i requires 0 <= i < |rows| => EncodeListed(rows[i]))
  }

  /** The count is cut down to one byte. */
  function ListBody(rows: seq<Listed>): seq<byte> {
    [|rows| % 256] + Flatten(EncodedRows(rows))
  }

  // ---- how a client reads it ----

  function RowAt(data: seq<byte>, cursor: nat): Decode<(Listed, nat)> {
    match FirstNul(data, cursor + 8)
    case None => Invalid
    case Some(end) =>
      if |data| < end + 262 || data[end + 30..end + 262] != seq(232, _ => 0) then Invalid
      else Decoded((RowFrom(data, cursor, end), end + 262))
  }

  /** The row at `cursor` whose name ends at `end`; nobody knows the account from it. */
  function RowFrom(data: seq<byte>, cursor: nat, end: nat): Listed
    requires cursor + 8 <= end && end + 262 <= |data|
  {
    Listed(GetU64(data[cursor..cursor + 8]),
           Character(0, data[cursor + 8..end], data[end + 1..end + 9], data[end + 9], data[end + 10..end + 30]))
  }

  function RowStep(data: seq<byte>): nat -> Decode<(Listed, nat)> {
    cursor => RowAt(data, cursor)
  }

  function ReadList(body: seq<byte>): Option<seq<Listed>> {
    if body == [] then None
    else match Repeat(RowStep(body), 1, body[0])
      case Decoded(rows) => Some(rows)
      case _ => None
  }

  /** What a client learns of a row: everything but the account. */
  function Shown(row: Listed): Listed {
    row.(character := row.character.(account := 0))
  }

  function AllShown(rows: seq<Listed>): (r: seq<Listed>)
    ensures |r| == |rows|
  {
    seq(|rows|, i requires 0 <= i < |rows| => Shown(rows[i]))
  }

  /** `s` holds the row field by field. */
  predicate LaidOut(row: Listed, s: seq<byte>) {
    var n := 8 + |row.character.name|;
    && |s| == n + 262 && s[0..8] == PadLe(row.id, 8) && s[8..n] == row.character.name && s[n] == 0
    && s[n + 1..n + 9] == row.character.looks && s[n + 9] == row.character.level && s[n + 10..n + 30] == row.character.place
    && s[n + 30..n + 262] == seq(232, _ => 0)
  }

  lemma RowLayout(row: Listed)
    ensures LaidOut(row, EncodeListed(row))
  {
  }

  lemma RowFromLayout(row: Listed, s: seq<byte>, data: seq<byte>, c: nat, end: nat)
    requires LaidOut(row, s) && c + |s| <= |data| && data[c..c + |s|] == s && end == c + 8 + |row.character.name|
    ensures data[c + 8..end] == row.character.name && data[end] == 0 && RowFrom(data, c, end) == Shown(row)
    ensures data[end + 30..end + 262] == seq(232, _ => 0)
  {
    var n := 8 + |row.character.name|;
    SliceSub(data, c, s, 0, 8);
    SliceSub(data, c, s, 8, n);
    SliceSub(data, c, s, n + 1, n + 9);
    SliceSub(data, c, s, n + 10, n + 30);
    SliceSub(data, c, s, n + 30, n + 262);
    SliceAt(data, c, s, n);
    SliceAt(data, c, s, n + 9);
    PutGet(row.id);
  }

  lemma RowReadsAt(row: Listed, s: seq<byte>, data: seq<byte>, step: nat -> Decode<(Listed, nat)>, c: nat)
    requires NulFree(row.character.name) && LaidOut(row, s) && step == RowStep(data)
    ensures ReadsAt(step, s, Shown(row), data, c)
  {
    if c + |s| <= |data| && data[c..c + |s|] == s {
      var end := c + 8 + |row.character.name|;
      RowFromLayout(row, s, data, c, end);
      TextThenNul(data, c + 8, end, row.character.name);
    }
  }

  lemma RowsRead(rows: seq<Listed>, data: seq<byte>, step: nat -> Decode<(Listed, nat)>)
    requires (forall row :: row in rows ==> NulFree(row.character.name)) && step == RowStep(data)
    ensures forall k :: 0 <= k < |rows| ==> Reads(step, EncodedRows(rows)[k], AllShown(rows)[k], data)
  {
    forall k | 0 <= k < |rows|
      ensures Reads(step, EncodedRows(rows)[k], AllShown(rows)[k], data)
    {
      RowLayout(rows[k]);
      forall c: nat
        ensures ReadsAt(step, EncodedRows(rows)[k], Shown(rows[k]), data, c)
      {
        RowReadsAt(rows[k], EncodedRows(rows)[k], data, step, c);
      }
    }
  }

  lemma {:induction false} RepeatLength<T>(step: nat -> Decode<(T, nat)>, cursor: nat, count: nat)
    ensures var r := Repeat(step, cursor, count); r.Decoded? ==> |r.value| == count
    decreases count
  {
    if count > 0 && step(cursor).Decoded? {
      RepeatLength(step, step(cursor).value.1, count - 1);
    }
  }

  /** A client reads the list back, all rows in order, exactly when there are at most 255 of them. */
  lemma ListRoundTrip(rows: seq<Listed>, body: seq<byte>)
    requires (forall row :: row in rows ==> NulFree(row.character.name)) && body == ListBody(rows)
    ensures ReadList(body) == Some(AllShown(rows)) <==> |rows| <= 255
  {
    var step := RowStep(body);
    if |rows| <= 255 {
      RowsRead(rows, body, step);
      AllPartsReadBack(step, [|rows|], EncodedRows(rows), AllShown(rows), body);
    } else {
      RepeatLength(step, 1, body[0]);
    }
  }

  // ---- how long it gets ----

  function NamesLength(rows: seq<Listed>): nat {
    if rows == [] then 0 else NamesLength(rows[..|rows| - 1]) + |rows[|rows| - 1].character.name|
  }

  /** One byte for the count, 270 and the name for each row. */
  function ListLength(rows: seq<Listed>): nat {
    1 + 270 * |rows| + NamesLength(rows)
  }

  lemma {:induction false} BodyLength(rows: seq<Listed>)
    ensures |ListBody(rows)| == ListLength(rows)
  {
    if rows != [] {
      var front, last := rows[..|rows| - 1], rows[|rows| - 1];
      BodyLength(front);
      assert EncodedRows(rows) == EncodedRows(front) + [EncodeListed(last)];
      FlattenAppend(EncodedRows(front), EncodeListed(last));
    }
  }

  // ---- a list that is too long ----

  /** The names of a crowd: "Aaaa" to "Aama", then "Aan", "Aao" and so on. */
  function CrowdName(k: nat): Name
    requires k < 240
  {
    [0x41, 0x61 + k / 26, 0x61 + k % 26] + if k < 13 then [0x61] else []
  }

  function CrowdMember(account: u32, k: nat): Character
    requires k < 240
  {
    NewCharacter(account, CrowdName(k), [1, 1, 0, 0, 0, 0, 0, 0])
  }

  function Crowd(account: u32): Table {
    map k: u64 | 0 <= k < 240 :: CrowdMember(account, k)
  }

  function CrowdScan(n: nat): seq<u64>
    requires n <= 240
  {
    seq(n, i requires 0 <= i < n => i)
  }

  lemma CrowdNamed(k: nat)
    requires k < 240
    ensures WellNamed(CrowdName(k)) && |CrowdName(k)| <= 4
  {
    var n := CrowdName(k);
    assert Lower(n)[1..] == n[1..];
  }

  lemma CrowdDistinct(k: nat, l: nat)
    requires k < 240 && l < 240 && CrowdName(k) == CrowdName(l)
    ensures k == l
  {
    assert CrowdName(k)[1] == CrowdName(l)[1] && CrowdName(k)[2] == CrowdName(l)[2];
  }

  /** All the crowd's names are in order. */
  lemma CrowdNames(account: u32)
    ensures NamesInv(Crowd(account))
  {
    var t := Crowd(account);
    forall id | id in t
      ensures WellNamed(t[id].name)
    {
      CrowdNamed(id);
    }
    forall i, j | i in t && j in t && t[i].name == t[j].name
      ensures i == j
    {
      CrowdDistinct(i, j);
    }
  }

  lemma {:induction false} CrowdListing(account: u32, n: nat)
    requires n <= 240
    ensures var rows := Listing(Crowd(account), account, CrowdScan(n));
            |rows| == n && NamesLength(rows) == 3 * n + if n < 13 then n else 13
  {
    if n > 0 {
      CrowdListing(account, n - 1);
      assert CrowdScan(n)[..n - 1] == CrowdScan(n - 1);
      var rows := Listing(Crowd(account), account, CrowdScan(n));
      assert rows[..n - 1] == Listing(Crowd(account), account, CrowdScan(n - 1));
    }
  }

  /** 240 characters with names of three and four letters fill 65534 bytes. */
  lemma CrowdTooLong(account: u32)
    ensures ListLength(Listing(Crowd(account), account, CrowdScan(240))) == 65534
  {
    CrowdListing(account, 240);
  }
}
