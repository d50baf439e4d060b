/** Character creation and deletion (services/world/src/world/world.rs, `handle_packet`) over the character table
    (crates/mysql-characters/src/characters.rs). Names are UTF-8 bytes. Whether a statement succeeds, and the random
    number behind a new id, are parameters. */
module Characters {
  import opened Bytes

  type Name = seq<byte>

  /** `looks` is race, class, gender, skin, face, hair style, hair colour and facial style; `place` is zone, map and
      position as a listing shows them. */
  datatype Character = Character(account: u32, name: Name, looks: Bytes8, level: byte, place: Bytes20)

  /** Zone 1 and the coordinates of the starting place cut down to unsigned integers: 0, 331, 382. */
  const START_PLACE: Bytes20 := [1, 0, 0, 0, 0, 0, 0, 0, 0, 0, 0, 0, 75, 1, 0, 0, 126, 1, 0, 0]

  function NewCharacter(account: u32, n: Name, looks: Bytes8): Character {
    Character(account, n, looks, 1, START_PLACE)
  }

  type Table = map<u64, Character>

  datatype ResponseCode =
    | CharCreateSuccess | CharCreateNameInUse | CharNameFailure | CharNameNoName | CharNameTooShort
    | CharDeleteSuccess | CharDeleteFailed

  // ---- names ----

  function LowerByte(b: byte): byte {
    if 0x41 <= b <= 0x5A then b + 0x20 else b
  }

  function UpperByte(b: byte): byte {
    if 0x61 <= b <= 0x7A then b - 0x20 else b
  }

  /** `to_ascii_lowercase` */
  function Lower(n: Name): (r: Name)
    ensures |r| == |n|
  {
    seq(|n|, i requires 0 <= i < |n| => LowerByte(n[i]))
  }

  /** Whether `0..1` is a whole number of UTF-8 characters. */
  predicate FirstByteAlone(n: Name) {
    |n| >= 1 && (|n| == 1 || n[1] < 0x80 || n[1] >= 0xC0)
  }

  /** The only spelling the server accepts: lower case with a capital first letter. */
  function Proper(n: Name): (r: Name)
    ensures |r| == |n|
  {
    var lower := Lower(n);
    if FirstByteAlone(lower) then lower[0 := UpperByte(lower[0])] else lower
  }

  lemma LowerOfProper(n: Name)
    ensures Lower(Proper(n)) == Lower(n)
  {
    assert forall i :: 0 <= i < |n| ==> Lower(Proper(n))[i] == Lower(n)[i];
  }

  lemma ProperIdempotent(n: Name)
    ensures Proper(Proper(n)) == Proper(n)
  {
    LowerOfProper(n);
  }

  /** Names that differ only in ASCII case have one proper spelling, and only those do. */
  lemma ProperIsCaseFold(a: Name, b: Name)
    ensures Proper(a) == Proper(b) <==> Lower(a) == Lower(b)
  {
    LowerOfProper(a);
    LowerOfProper(b);
  }

  /** Why a free name is refused, if it is. */
  function Complaint(n: Name): Option<ResponseCode> {
    if Proper(n) != n then Some(CharNameFailure)
    else if n == [] then Some(CharNameNoName)
    else if |n| < 2 then Some(CharNameTooShort)
    else None
  }

  predicate Free(t: Table, n: Name) {
    forall id :: id in t ==> t[id].name != n
  }

  // ---- the table ----

  class CharacterService {
    var characters: Table

    constructor ()
      ensures characters == map[]
    {
      characters := map[];
    }

    /** `None` when the query fails. */
    method NameAvailable(n: Name, answered: bool) returns (r: Option<bool>)
      ensures r == if answered then Some(Free(characters, n)) else None
    {
      if !answered {
        return None;
      }
      var ids, count := characters.Keys, 0;
      while ids != {}
        invariant ids <= characters.Keys
        invariant count == 0 <==> forall id :: id in characters && id !in ids ==> characters[id].name != n
        invariant count >= 0
      {
        var id :| id in ids;
        if characters[id].name == n {
          count := count + 1;
        }
        ids := ids - {id};
      }
      r := Some(count == 0);
    }

    /** The guid is the key of the table: a second row with it is refused. */
    method CreateCharacter(c: Character, low: u32, accepted: bool) returns (ok: bool)
      modifies this
      ensures ok <==> accepted && low !in old(characters)
      ensures characters == if ok then old(characters)[low := c] else old(characters)
    {
      ok := accepted && low !in characters;
      if ok {
        characters := characters[low := c];
      }
    }

    method DeleteCharacter(id: u64, accepted: bool) returns (ok: bool)
      modifies this
      ensures ok == accepted
      ensures characters == if ok then old(characters) - {id} else old(characters)
    {
      ok := accepted;
      if ok {
        characters := characters - {id};
      }
    }

    /** The rows of an account in the order the database comes upon them, `None` when the query fails. */
    method GetByAccount(account: u32, scan: Option<seq<u64>>) returns (r: Option<seq<Listed>>)
      ensures r == if scan.Some? then Some(Listing(characters, account, scan.value)) else None
    {
      if scan.None? {
        return None;
      }
      var rows: seq<Listed> := [];
      for i := 0 to |scan.value|
        invariant rows == Listing(characters, account, scan.value[..i])
      {
        var id := scan.value[i];
        assert scan.value[..i + 1][..i] == scan.value[..i];
        if id in characters && characters[id].account == account {
          rows := rows + [Listed(id, characters[id])];
        }
      }
      assert scan.value[..|scan.value|] == scan.value;
      r := Some(rows);
    }

    /** The reply, or `None` when the handler gives up without one. */
    method HandleCreate(account: Option<u32>, n: Name, looks: Bytes8, db: Answers) returns (reply: Option<ResponseCode>)
      modifies this
      ensures (characters, reply) == Handled(old(characters), Create(account, n, looks, db))
    {
      var available := NameAvailable(n, db.answered);
      if available.None? || !available.value {
        return Some(CharCreateNameInUse);
      }
      var complaint := Complaint(n);
      if complaint.Some? {
        return complaint;
      }
      if account.None? {
        return None;
      }
      var ok := CreateCharacter(NewCharacter(account.value, n, looks), db.low, db.accepted);
      reply := if ok then Some(CharCreateSuccess) else None;
    }

    method HandleDelete(id: u64, accepted: bool) returns (reply: Option<ResponseCode>)
      modifies this
      ensures (characters, reply) == Handled(old(characters), Delete(id, accepted))
    {
      if id / 0x1_0000_0000_0000 != 0 {
        return None;
      }
      var ok := DeleteCharacter(id, accepted);
      reply := Some(if ok then CharDeleteSuccess else CharDeleteFailed);
    }
  }

  /** What the database does with the queries of one creation. */
  datatype Answers = Answers(answered: bool, low: u32, accepted: bool)

  datatype Request =
    | Create(account: Option<u32>, name: Name, looks: Bytes8, db: Answers)
    | Delete(id: u64, accepted: bool)

  /** A request as the specification sees it: the table afterwards and the reply. */
  function Handled(t: Table, r: Request): (Table, Option<ResponseCode>) {
    match r
    case Create(account, n, looks, db) =>
      if !db.answered || !Free(t, n) then (t, Some(CharCreateNameInUse))
      else if Complaint(n).Some? then (t, Complaint(n))
      else if account.None? || !db.accepted || db.low in t then (t, None)
      else (t[db.low := NewCharacter(account.value, n, looks)], Some(CharCreateSuccess))
    case Delete(id, accepted) =>
      if id / 0x1_0000_0000_0000 != 0 then (t, None)
      else if accepted then (t - {id}, Some(CharDeleteSuccess))
      else (t, Some(CharDeleteFailed))
  }

  function Run(requests: seq<Request>): Table {
    if requests == [] then map[] else Handled(Run(requests[..|requests| - 1]), requests[|requests| - 1]).0
  }

  // ---- listings ----

  /** A row as a listing gives it. */
  datatype Listed = Listed(id: u64, character: Character)

  /** The rows of an account among those scanned. */
  function Listing(t: Table, account: u32, scan: seq<u64>): seq<Listed> {
    if scan == [] then []
    else
      var front, id := Listing(t, account, scan[..|scan| - 1]), scan[|scan| - 1];
      if id in t && t[id].account == account then front + [Listed(id, t[id])] else front
  }

  predicate Distinct(scan: seq<u64>) {
    forall i, j :: 0 <= i < j < |scan| ==> scan[i] != scan[j]
  }

  /** A row is listed exactly if it was scanned and belongs to the account. */
  lemma {:induction false} ListingExact(t: Table, account: u32, scan: seq<u64>, row: Listed)
    ensures row in Listing(t, account, scan)
            <==> row.id in scan && row.id in t && row.character == t[row.id] && row.character.account == account
  {
    if scan != [] {
      var front, last := scan[..|scan| - 1], scan[|scan| - 1];
      ListingExact(t, account, front, row);
      assert scan == front + [last];
    }
  }

  /** A scan that comes upon each row once lists it at most once. */
  lemma {:induction false} ListedOnce(t: Table, account: u32, scan: seq<u64>, i: nat, j: nat)
    requires Distinct(scan) && i < j < |Listing(t, account, scan)|
    ensures Listing(t, account, scan)[i].id != Listing(t, account, scan)[j].id
  {
    var front := scan[..|scan| - 1];
    if j < |Listing(t, account, front)| {
      ListedOnce(t, account, front, i, j);
    } else {
      var earlier := Listing(t, account, front)[i];
      assert earlier in Listing(t, account, front);
      ListingExact(t, account, front, earlier);
    }
  }

  // ---- what every run keeps ----

  ghost predicate WellNamed(n: Name) {
    |n| >= 2 && Proper(n) == n
  }

  /** Stored names are proper, long enough, and no two characters share one. */
  ghost predicate NamesInv(t: Table) {
    && (forall id :: id in t ==> WellNamed(t[id].name))
    && (forall i, j :: i in t && j in t && t[i].name == t[j].name ==> i == j)
  }

  lemma HandledKeepsNames(t: Table, r: Request)
    requires NamesInv(t)
    ensures NamesInv(Handled(t, r).0)
  {
  }

  lemma {:induction false} RunKeepsNames(requests: seq<Request>)
    ensures NamesInv(Run(requests))
  {
    if requests != [] {
      RunKeepsNames(requests[..|requests| - 1]);
      HandledKeepsNames(Run(requests[..|requests| - 1]), requests[|requests| - 1]);
    }
  }

  /** After any requests whatever, two stored characters never have names that agree up to ASCII case; every name
      has at least two bytes and is the proper spelling of itself. */
  lemma NamesDistinctIgnoringCase(requests: seq<Request>, i: u64, j: u64)
    requires i in Run(requests) && j in Run(requests) && i != j
    ensures Lower(Run(requests)[i].name) != Lower(Run(requests)[j].name)
    ensures |Run(requests)[i].name| >= 2 && Proper(Run(requests)[i].name) == Run(requests)[i].name
  {
    RunKeepsNames(requests);
    ProperIsCaseFold(Run(requests)[i].name, Run(requests)[j].name);
  }

  /** A confirmed creation shows up in every listing of the account that scans it, and in no other account's. */
  lemma CreateThenList(t: Table, account: u32, n: Name, looks: Bytes8, db: Answers, other: u32, scan: seq<u64>)
    requires Handled(t, Create(Some(account), n, looks, db)).1 == Some(CharCreateSuccess) && db.low in scan
    ensures var created := Handled(t, Create(Some(account), n, looks, db)).0;
            var row := Listed(db.low, Character(account, n, looks, 1, [1, 0, 0, 0, 0, 0, 0, 0, 0, 0, 0, 0, 75, 1, 0, 0, 126, 1, 0, 0]));
            row in Listing(created, other, scan) <==> other == account
  {
    var created := Handled(t, Create(Some(account), n, looks, db)).0;
    ListingExact(created, other, scan, Listed(db.low, NewCharacter(account, n, looks)));
  }

  /** Deleting a created character frees its name again and restores the table. */
  lemma CreateThenDelete(t: Table, account: u32, n: Name, looks: Bytes8, db: Answers)
    requires Handled(t, Create(Some(account), n, looks, db)).1 == Some(CharCreateSuccess)
    ensures var created := Handled(t, Create(Some(account), n, looks, db)).0;
            && !Free(created, n)
            && Handled(created, Delete(db.low, true)) == (t, Some(CharDeleteSuccess))
  {
    var created := Handled(t, Create(Some(account), n, looks, db)).0;
    assert created[db.low].name == n && created - {db.low} == t;
  }
}
