/** Realm availability: heartbeats arriving over UDP, the updater that turns them into flags
    (services/auth/src/authserver.rs) and the status table it writes (crates/mysql-auth/src/realms.rs).
    Instants are nanoseconds. The receiver and the updater are separate tasks, so datagrams may arrive between
    any two rows of an update. */
module Heartbeat {
  import opened Bytes

  const OFFLINE: byte := 0x02
  const RECOMMENDED: byte := 0x20

  datatype Status = Status(realm: byte, flag: byte)

  /** `now.saturating_duration_since(heard).as_secs()` */
  function SecondsSince(heard: nat, now: nat): nat {
    if now < heard then 0 else (now - heard) / 1_000_000_000
  }

  predicate Overdue(heard: nat, now: nat) {
    SecondsSince(heard, now) > 15
  }

  function Verdict(heard: nat, now: nat): byte {
    if Overdue(heard, now) then OFFLINE else RECOMMENDED
  }

  /** In nanoseconds: Offline from sixteen seconds after the last heartbeat on, else Recommended, a heartbeat sampled after
      `now` included. */
  function Deserved(heard: nat, now: nat): byte {
    if now >= heard + 16_000_000_000 then 0x02 else 0x20
  }

  lemma VerdictExact(heard: nat, now: nat)
    ensures Verdict(heard, now) == Deserved(heard, now) && (Overdue(heard, now) <==> now >= heard + 16_000_000_000)
  {
    if now >= heard {
      assert (now - heard) / 1_000_000_000 > 15 <==> now - heard >= 16_000_000_000;
    }
  }

  // ---- batches and the status table ----

  /** The batch names every realm of `m` exactly once, in any order, each with its verdict. */
  predicate Batch(data: seq<Status>, m: map<byte, nat>, now: nat) {
    if data == [] then m == map[]
    else
      && data[0].realm in m && data[0].flag == Verdict(m[data[0].realm], now)
      && Batch(data[1..], m - {data[0].realm}, now)
  }

  /** `insert … on duplicate key update`, row after row. */
  function Upserts(table: map<u32, byte>, data: seq<Status>): map<u32, byte>
    decreases |data|
  {
    if data == [] then table else Upserts(table[data[0].realm := data[0].flag], data[1..])
  }

  /** What the table should say afterwards, with no batch in sight. */
  function Judged(table: map<u32, byte>, m: map<byte, nat>, now: nat): map<u32, byte> {
    table + map k | k in m :: Verdict(m[k], now)
  }

  /** The iteration order of the map is irrelevant: any batch over `m` leaves the same table. */
  lemma {:induction false} BatchJudges(table: map<u32, byte>, data: seq<Status>, m: map<byte, nat>, now: nat)
    requires Batch(data, m, now)
    ensures Upserts(table, data) == Judged(table, m, now)
    decreases |data|
  {
    if data != [] {
      var row := data[0];
      BatchJudges(table[row.realm := row.flag], data[1..], m - {row.realm}, now);
    }
  }

  lemma {:induction false} BatchAppend(data: seq<Status>, m: map<byte, nat>, now: nat, k: byte, heard: nat)
    requires Batch(data, m, now) && k !in m
    ensures Batch(data + [Status(k, Verdict(heard, now))], m[k := heard], now)
    decreases |data|
  {
    var row := Status(k, Verdict(heard, now));
    if data == [] {
      assert ([] + [row])[1..] == [] && m[k := heard] - {k} == map[];
    } else {
      BatchAppend(data[1..], m - {data[0].realm}, now, k, heard);
      assert (data + [row])[1..] == data[1..] + [row];
      assert m[k := heard] - {data[0].realm} == (m - {data[0].realm})[k := heard];
    }
  }

  lemma {:induction false} BatchSize(data: seq<Status>, m: map<byte, nat>, now: nat)
    requires Batch(data, m, now)
    ensures |data| == |m|
    decreases |data|
  {
    if data != [] {
      var k := data[0].realm;
      BatchSize(data[1..], m - {k}, now);
      assert m == (m - {k})[k := m[k]];
    }
  }

  lemma {:induction false} UpsertsOnly(table: map<u32, byte>, data: seq<Status>, k: u32)
    requires forall s :: s in data ==> s.realm != k
    ensures k in Upserts(table, data) <==> k in table
    ensures k in table ==> Upserts(table, data)[k] == table[k]
    decreases |data|
  {
    if data != [] {
      UpsertsOnly(table[data[0].realm := data[0].flag], data[1..], k);
    }
  }

  /** What survives the drain. */
  function Kept(m: map<byte, nat>, now: nat): map<byte, nat> {
    map k | k in m && !Overdue(m[k], now) :: m[k]
  }

  class StatusTable {
    var flags: map<u32, byte>

    /** `update_status`: `failure` is the row whose statement the database refuses, if any. */
    method UpdateStatus(online: seq<Status>, failure: Option<nat>) returns (ok: bool)
      modifies this
      ensures ok <==> failure.None? || failure.value >= |online|
      ensures ok ==> flags == Upserts(old(flags), online)
      ensures !ok ==> flags == Upserts(old(flags), online[..failure.value])
    {
      ghost var was := flags;
      for i := 0 to |online|
        invariant flags == Upserts(was, online[..i])
        invariant failure.Some? ==> i <= failure.value
      {
        if failure == Some(i) {
          return false;
        }
        UpsertsNext(was, online, i);
        flags := flags[online[i].realm := online[i].flag];
      }
      assert online[..|online|] == online;
      return true;
    }
  }

  lemma {:induction false} UpsertsSplit(table: map<u32, byte>, x: seq<Status>, y: seq<Status>)
    ensures Upserts(table, x + y) == Upserts(Upserts(table, x), y)
    decreases |x|
  {
    if x == [] {
      assert x + y == y;
    } else {
      UpsertsSplit(table[x[0].realm := x[0].flag], x[1..], y);
      assert (x + y)[1..] == x[1..] + y;
    }
  }

  lemma UpsertsNext(table: map<u32, byte>, data: seq<Status>, i: nat)
    requires i < |data|
    ensures Upserts(table, data[..i + 1]) == Upserts(table, data[..i])[data[i].realm := data[i].flag]
  {
    var before := Upserts(table, data[..i]);
    UpsertsSplit(table, data[..i], [data[i]]);
    assert data[..i + 1] == data[..i] + [data[i]];
    assert Upserts(before, [data[i]]) == Upserts(before[data[i].realm := data[i].flag], [data[i]][1..]);
  }

  // ---- the two tasks ----

  /** `recv` into the six bytes: a longer datagram is cut, a shorter one leaves the rest of the last one in place. */
  function Overlay(buffer: seq<byte>, datagram: seq<byte>): (r: seq<byte>)
    requires |buffer| == 6
    ensures |r| == 6
  {
    if |datagram| < 6 then datagram + buffer[|datagram|..] else datagram[..6]
  }

  /** Byte by byte. */
  lemma OverlayAt(buffer: seq<byte>, datagram: seq<byte>, i: nat)
    requires |buffer| == 6 && i < 6
    ensures Overlay(buffer, datagram)[i] == if i < |datagram| then datagram[i] else buffer[i]
  {
  }

  method Recv(buffer: array<byte>, datagram: seq<byte>)
    requires buffer.Length == 6
    modifies buffer
    ensures buffer[..] == Overlay(old(buffer[..]), datagram)
  {
    var n := if |datagram| < 6 then |datagram| else 6;
    for i := 0 to n
      invariant forall k :: 0 <= k < 6 ==> buffer[k] == if k < i then datagram[k] else old(buffer[k])
    {
      buffer[i] := datagram[i];
    }
  }

  /** The realm a received buffer announces. */
  function Announced(buffer: seq<byte>): Option<byte>
    requires |buffer| == 6
  {
    if buffer[0] == 0 then Some(buffer[1]) else None
  }

  /** What `auth_server_heartbeat` sends for a realm: the id is cut to one byte. */
  function Beat(id: u32, population: u32): (r: seq<byte>) {
    [0, id % 256] + PadLe(population, 4)
  }

  class Monitor {
    const buffer: array<byte>
    var heartbeat: map<byte, nat>
    const realms: StatusTable

    constructor (table: StatusTable)
      ensures buffer.Length == 6 && fresh(buffer) && buffer[..] == [0, 0, 0, 0, 0, 0]
      ensures heartbeat == map[] && realms == table
    {
      buffer := new byte[6](_ => 0);
      heartbeat := map[];
      realms := table;
    }

    /** One turn of `world_server_heartbeat`; `None` is a failing `recv`. */
    method Receive(datagram: Option<seq<byte>>, now: nat)
      requires buffer.Length == 6
      modifies this, buffer
      ensures buffer[..] == if datagram.Some? then Overlay(old(buffer[..]), datagram.value) else old(buffer[..])
      ensures datagram.None? ==> heartbeat == old(heartbeat)
      ensures datagram.Some? ==> heartbeat == if buffer[0] == 0 then old(heartbeat)[buffer[1] := now] else old(heartbeat)
    {
      if datagram.None? {
        return;
      }
      Recv(buffer, datagram.value);
      if buffer[0] == 0 {
        heartbeat := heartbeat[buffer[1] := now];
      }
    }

    /** The locked part of an updater turn: overdue realms leave the map, and the batch names everyone once. */
    method Drain(now: nat) returns (data: seq<Status>)
      modifies this`heartbeat
      ensures heartbeat == Kept(old(heartbeat), now)
      ensures Batch(data, old(heartbeat), now)
      ensures forall row :: row in data ==> row.realm in old(heartbeat) && row.flag == Deserved(old(heartbeat)[row.realm], now)
    {
      ghost var all := heartbeat;
      data := [];
      var todo := heartbeat.Keys;
      while todo != {}
        invariant todo <= all.Keys
        invariant heartbeat == map k | k in all && (k in todo || !Overdue(all[k], now)) :: all[k]
        invariant Batch(data, all - heartbeat.Keys, now)
      {
        var k :| k in todo;
        todo := todo - {k};
        if Overdue(heartbeat[k], now) {
          BatchAppend(data, all - heartbeat.Keys, now, k, all[k]);
          assert (all - heartbeat.Keys)[k := all[k]] == all - (heartbeat - {k}).Keys;
          data := data + [Status(k, OFFLINE)];
          heartbeat := heartbeat - {k};
        }
      }
      todo := heartbeat.Keys;
      while todo != {}
        invariant heartbeat == Kept(all, now) && todo <= heartbeat.Keys
        invariant Batch(data, all - todo, now)
      {
        var k :| k in todo;
        BatchAppend(data, all - todo, now, k, all[k]);
        assert (all - todo)[k := all[k]] == all - (todo - {k});
        todo := todo - {k};
        data := data + [Status(k, RECOMMENDED)];
      }
      assert all - {} == all;
      forall row | row in data
        ensures row.realm in all && row.flag == Deserved(all[row.realm], now)
      {
        BatchRows(data, all, now, row);
        VerdictExact(all[row.realm], now);
      }
    }

    /** One turn of `realmlist_updater`; `failure` as for `UpdateStatus`. */
    method Update(now: nat, failure: Option<nat>) returns (ok: bool)
      modifies this`heartbeat, realms
      ensures heartbeat == Kept(old(heartbeat), now)
      ensures ok <==> failure.None? || failure.value >= |old(heartbeat)|
      ensures ok ==> realms.flags == Judged(old(realms.flags), old(heartbeat), now)
      ensures ok ==> forall k :: k in old(heartbeat) ==> k in realms.flags && realms.flags[k] == Deserved(old(heartbeat)[k], now)
      ensures forall k: byte :: k in heartbeat <==> k in old(heartbeat) && now < old(heartbeat)[k] + 16_000_000_000
    {
      ghost var all, table := heartbeat, realms.flags;
      var data := Drain(now);
      ok := realms.UpdateStatus(data, failure);
      BatchSize(data, all, now);
      BatchJudges(table, data, all, now);
      forall k | k in all
        ensures Verdict(all[k], now) == Deserved(all[k], now) && (Overdue(all[k], now) <==> now >= all[k] + 16_000_000_000)
      {
        VerdictExact(all[k], now);
      }
    }
  }

  function Heard(m: map<byte, nat>, realm: Option<byte>, now: nat): map<byte, nat> {
    if realm.Some? then m[realm.value := now] else m
  }

  /** A beat of realm `id` announces realm `id mod 256`, whatever the buffer held before. */
  lemma BeatAnnounces(id: u32, population: u32, buffer: seq<byte>)
    requires |buffer| == 6
    ensures Announced(Overlay(buffer, Beat(id, population))) == Some(id % 256)
    ensures var b := Beat(id, population); |b| == 6 && b[0] == 0 && FromLe(b[2..]) == population
  {
    PaddedRoundTrip(population, 4);
    assert |Beat(id, population)| == 6;
    assert Beat(id, population)[..6][1] == id % 256;
  }

  // ---- every interleaving of the two tasks ----

  datatype Event =
    | Datagram(bytes: seq<byte>, at: nat)
    | Drained(now: nat, data: seq<Status>)
    | Upserted
    | UpdateFailed

  /** `pending` holds the rows of the current batch that are not written yet. */
  datatype Board = Board(buffer: Bytes6, heartbeat: map<byte, nat>, pending: seq<Status>, table: map<u32, byte>)

  type Bytes6 = s: seq<byte> | |s| == 6 witness seq(6, _ => 0)

  ghost predicate Enabled(b: Board, e: Event) {
    match e
    case Datagram(_, _) => true
    case Drained(now, data) => b.pending == [] && Batch(data, b.heartbeat, now)
    case Upserted => b.pending != []
    case UpdateFailed => b.pending != []
  }

  function Step(b: Board, e: Event): Board {
    match e
    case Datagram(bytes, at) =>
      var buffer := Overlay(b.buffer, bytes);
      b.(buffer := buffer, heartbeat := Heard(b.heartbeat, Announced(buffer), at))
    case Drained(now, data) => b.(heartbeat := Kept(b.heartbeat, now), pending := data)
    case Upserted =>
      if b.pending == [] then b
      else b.(pending := b.pending[1..], table := b.table[b.pending[0].realm := b.pending[0].flag])
    case UpdateFailed => b.(pending := [])
  }

  function Run(table: map<u32, byte>, events: seq<Event>): Board {
    if events == [] then Board([0, 0, 0, 0, 0, 0], map[], [], table)
    else Step(Run(table, events[..|events| - 1]), events[|events| - 1])
  }

  /** A datagram refreshes the realm its second byte names if its first is zero, missing bytes being those of the last one; a
      drain forgets what is sixteen seconds old, whatever becomes of its batch. */
  lemma StepHears(b: Board, e: Event)
    ensures e.Datagram? ==>
              var first, second := if |e.bytes| > 0 then e.bytes[0] else b.buffer[0], if |e.bytes| > 1 then e.bytes[1] else b.buffer[1];
              Step(b, e).heartbeat == (if first == 0 then b.heartbeat[second := e.at] else b.heartbeat)
    ensures e.Drained? ==> forall k: byte :: k in Step(b, e).heartbeat <==> k in b.heartbeat && e.now < b.heartbeat[k] + 16_000_000_000
    ensures e.Drained? ==> forall k: byte :: k in Step(b, e).heartbeat ==> Step(b, e).heartbeat[k] == b.heartbeat[k]
  {
    if e.Datagram? {
      OverlayAt(b.buffer, e.bytes, 0);
      OverlayAt(b.buffer, e.bytes, 1);
    } else if e.Drained? {
      forall k | k in b.heartbeat
        ensures Overdue(b.heartbeat[k], e.now) <==> e.now >= b.heartbeat[k] + 16_000_000_000
      {
        VerdictExact(b.heartbeat[k], e.now);
      }
    }
  }

  /** The `now` of the last drain. */
  function LastNow(events: seq<Event>): nat {
    if events == [] then 0
    else if events[|events| - 1].Drained? then events[|events| - 1].now
    else LastNow(events[..|events| - 1])
  }

  /** Every step was possible when it was taken, and the sampled clock never went backwards. */
  ghost predicate Possible(table: map<u32, byte>, events: seq<Event>) {
    events != [] ==>
      var front, last := events[..|events| - 1], events[|events| - 1];
      && Possible(table, front) && Enabled(Run(table, front), last)
      && (last.Drained? ==> LastNow(front) <= last.now)
  }

  // The log of a run, read without the map, the batches or the table.

  function Received(events: seq<Event>): Bytes6 {
    if events == [] then [0, 0, 0, 0, 0, 0]
    else
      var earlier := Received(events[..|events| - 1]);
      match events[|events| - 1]
      case Datagram(bytes, _) => Overlay(earlier, bytes)
      case _ => earlier
  }

  /** When realm `k` was last heard from. */
  function LastHeard(events: seq<Event>, k: u32): Option<nat> {
    if events == [] then None
    else
      var earlier := LastHeard(events[..|events| - 1], k);
      match events[|events| - 1]
      case Datagram(_, at) => if Announced(Received(events)) == Some(k) then Some(at) else earlier
      case _ => earlier
  }

  /** When realm `k` had last been heard from at the moment of the last drain. */
  function HeardAtDrain(events: seq<Event>, k: u32): Option<nat> {
    if events == [] then None
    else if events[|events| - 1].Drained? then LastHeard(events, k)
    else HeardAtDrain(events[..|events| - 1], k)
  }

  predicate Names(data: seq<Status>, k: u32) {
    exists s :: s in data && s.realm == k
  }

  /** Realm `k` was in the unwritten rest of a failed update, and no batch has named it since. */
  predicate Lost(table: map<u32, byte>, events: seq<Event>, k: u32) {
    events != [] &&
      var front, last := events[..|events| - 1], events[|events| - 1];
      match last
      case UpdateFailed => Lost(table, front, k) || Names(Run(table, front).pending, k)
      case Drained(_, _) => Lost(table, front, k) && k !in Run(table, front).heartbeat
      case _ => Lost(table, front, k)
  }

  /** What the table will say about `k` once the pending rows are written. */
  function Promised(b: Board, k: u32): Option<byte> {
    var t := Upserts(b.table, b.pending);
    if k in t then Some(t[k]) else None
  }

  /** What every step keeps, seen from one realm. */
  ghost predicate Tracks(b: Board, k: u32, last: Option<nat>, drained: Option<nat>, lost: bool, now: nat) {
    && (k in b.heartbeat ==> last == Some(b.heartbeat[k]))
    && (last.Some? && k !in b.heartbeat ==> drained == last && Overdue(last.value, now))
    && (drained.Some? && !lost ==> Promised(b, k) == Some(Verdict(drained.value, now)))
  }

  lemma DrainTracks(b: Board, k: u32, last: Option<nat>, drained: Option<nat>, lost: bool, before: nat, now: nat,
                    data: seq<Status>)
    requires Tracks(b, k, last, drained, lost, before) && before <= now
    requires b.pending == [] && Batch(data, b.heartbeat, now)
    ensures Tracks(Step(b, Drained(now, data)), k, last, last, lost && k !in b.heartbeat, now)
  {
    BatchJudges(b.table, data, b.heartbeat, now);
  }

  lemma FailTracks(b: Board, k: u32, last: Option<nat>, drained: Option<nat>, lost: bool, now: nat)
    requires Tracks(b, k, last, drained, lost, now)
    ensures Tracks(Step(b, UpdateFailed), k, last, drained, lost || Names(b.pending, k), now)
  {
    if !Names(b.pending, k) {
      UpsertsOnly(b.table, b.pending, k);
    }
  }

  lemma {:induction false} ReceivedIsBuffer(table: map<u32, byte>, events: seq<Event>)
    ensures Run(table, events).buffer == Received(events)
  {
    if events != [] {
      ReceivedIsBuffer(table, events[..|events| - 1]);
    }
  }

  lemma {:induction false} AlwaysTracks(table: map<u32, byte>, events: seq<Event>, k: u32)
    requires Possible(table, events)
    ensures Tracks(Run(table, events), k, LastHeard(events, k), HeardAtDrain(events, k), Lost(table, events, k), LastNow(events))
  {
    if events != [] {
      var front, last := events[..|events| - 1], events[|events| - 1];
      var b := Run(table, front);
      AlwaysTracks(table, front, k);
      match last
      case Datagram(bytes, at) =>
        ReceivedIsBuffer(table, front);
      case Drained(now, data) =>
        DrainTracks(b, k, LastHeard(front, k), HeardAtDrain(front, k), Lost(table, front, k), LastNow(front), now, data);
      case Upserted =>
      case UpdateFailed =>
        FailTracks(b, k, LastHeard(front, k), HeardAtDrain(front, k), Lost(table, front, k), LastNow(front));
    }
  }

  /** Refinement: whenever an update is finished, every realm heard from before its drain is flagged Offline exactly
      when more than fifteen whole seconds separate its last heartbeat from the sampled `now`, Recommended otherwise
      -- unless a failed update dropped its row and no batch has named it since. */
  lemma StatusRefinement(table: map<u32, byte>, events: seq<Event>, k: u32)
    requires Possible(table, events) && Run(table, events).pending == []
    requires HeardAtDrain(events, k).Some? && !Lost(table, events, k)
    ensures k in Run(table, events).table
    ensures Run(table, events).table[k]
            == if LastNow(events) >= HeardAtDrain(events, k).value + 16_000_000_000 then 0x02 else 0x20
  {
    AlwaysTracks(table, events, k);
    VerdictExact(HeardAtDrain(events, k).value, LastNow(events));
  }

  // ---- failures included: exactly what the table says ----

  /** What is behind a row: when its realm had been heard from, and the `now` it was judged by. */
  datatype Judgement = Judgement(heard: nat, now: nat)

  /** The judgement behind the last row that was written for realm `k`. */
  function LastRow(table: map<u32, byte>, events: seq<Event>, k: u32): Option<Judgement> {
    if events == [] then None
    else
      var front, last := events[..|events| - 1], events[|events| - 1];
      var pending, heard := Run(table, front).pending, HeardAtDrain(front, k);
      if last.Upserted? && pending != [] && pending[0].realm == k && heard.Some?
      then Some(Judgement(heard.value, LastNow(front)))
      else LastRow(table, front, k)
  }

  lemma {:induction false} BatchRows(data: seq<Status>, m: map<byte, nat>, now: nat, row: Status)
    requires Batch(data, m, now) && row in data
    ensures row.realm in m && row.flag == Verdict(m[row.realm], now)
    decreases |data|
  {
    if row != data[0] {
      BatchRows(data[1..], m - {data[0].realm}, now, row);
    }
  }

  /** A row that is waiting to be written holds the verdict of the last drain. */
  lemma {:induction false} PendingJudged(table: map<u32, byte>, events: seq<Event>, row: Status)
    requires Possible(table, events) && row in Run(table, events).pending
    ensures HeardAtDrain(events, row.realm).Some?
    ensures row.flag == Verdict(HeardAtDrain(events, row.realm).value, LastNow(events))
  {
    var front, last := events[..|events| - 1], events[|events| - 1];
    if last.Drained? {
      AlwaysTracks(table, front, row.realm);
      BatchRows(last.data, Run(table, front).heartbeat, last.now, row);
    } else {
      PendingJudged(table, front, row);
    }
  }

  /** In every run, failures included, a realm's flag is the verdict behind the last row written for it; a realm for
      which no row was written keeps the flag it had. */
  lemma {:induction false} TableExact(table: map<u32, byte>, events: seq<Event>, k: u32)
    requires Possible(table, events)
    ensures var flags := Run(table, events).table;
            match LastRow(table, events, k)
            case Some(row) => k in flags && flags[k] == Deserved(row.heard, row.now)
            case None => (k in flags <==> k in table) && (k in table ==> flags[k] == table[k])
  {
    if events != [] {
      var front, last := events[..|events| - 1], events[|events| - 1];
      TableExact(table, front, k);
      if last.Upserted? {
        var row := Run(table, front).pending[0];
        PendingJudged(table, front, row);
        VerdictExact(HeardAtDrain(front, row.realm).value, LastNow(front));
      }
    }
  }

  /** The exact condition, for all runs: after an update that finished or failed, a realm's flag is what its last
      heartbeat before the drain deserves if and only if the last row written for it, however old, was judged the same
      way -- or, if there was none, the table already said so. */
  lemma FlagExact(table: map<u32, byte>, events: seq<Event>, k: u32)
    requires Possible(table, events) && Run(table, events).pending == [] && HeardAtDrain(events, k).Some?
    ensures var flags, heard := Run(table, events).table, HeardAtDrain(events, k).value;
            (k in flags && flags[k] == Deserved(heard, LastNow(events)))
            <==> match LastRow(table, events, k)
                 case Some(row) => row.now >= row.heard + 16_000_000_000 <==> LastNow(events) >= heard + 16_000_000_000
                 case None => k in table && table[k] == Deserved(heard, LastNow(events))
  {
    TableExact(table, events, k);
  }

  /** `n` more rows of the current batch. */
  function Rows(n: nat): seq<Event> {
    if n == 0 then [] else Rows(n - 1) + [Upserted]
  }

  /** What a realm's log says, apart from the table. */
  datatype Log = Log(heard: Option<nat>, drained: Option<nat>, lost: bool, now: nat)

  function LogOf(table: map<u32, byte>, events: seq<Event>, k: u32): Log {
    Log(LastHeard(events, k), HeardAtDrain(events, k), Lost(table, events, k), LastNow(events))
  }

  lemma RowWritten(table: map<u32, byte>, events: seq<Event>, longer: seq<Event>, k: u32)
    requires Possible(table, events) && Run(table, events).pending != [] && longer == events + [Upserted]
    ensures Possible(table, longer) && Run(table, longer).pending == Run(table, events).pending[1..]
    ensures LogOf(table, longer, k) == LogOf(table, events, k)
  {
    assert longer[..|longer| - 1] == events;
  }

  lemma {:induction false} RowsWritten(table: map<u32, byte>, events: seq<Event>, n: nat, longer: seq<Event>, k: u32)
    requires Possible(table, events) && n <= |Run(table, events).pending| && longer == events + Rows(n)
    ensures Possible(table, longer) && Run(table, longer).pending == Run(table, events).pending[n..]
    ensures LogOf(table, longer, k) == LogOf(table, events, k)
  {
    if n == 0 {
      assert longer == events;
    } else {
      var shorter := events + Rows(n - 1);
      RowsWritten(table, events, n - 1, shorter, k);
      assert longer == shorter + [Upserted];
      RowWritten(table, shorter, longer, k);
    }
  }

  /** After any run, failures included, one more successful update with no datagram among its rows gives every realm
      still in the map, and every other realm that no failed update has dropped, the flag its last heartbeat
      deserves. */
  lemma EveryUpdateJudges(table: map<u32, byte>, events: seq<Event>, now: nat, data: seq<Status>, k: u32, whole: seq<Event>)
    requires Possible(table, events) && Run(table, events).pending == [] && LastNow(events) <= now
    requires Batch(data, Run(table, events).heartbeat, now) && LastHeard(events, k).Some?
    requires k in Run(table, events).heartbeat || !Lost(table, events, k)
    requires whole == events + [Drained(now, data)] + Rows(|data|)
    ensures Possible(table, whole) && k in Run(table, whole).table
    ensures Run(table, whole).table[k] == if now >= LastHeard(events, k).value + 16_000_000_000 then 0x02 else 0x20
  {
    var drained := events + [Drained(now, data)];
    assert drained[..|events|] == events;
    RowsWritten(table, drained, |data|, whole, k);
    StatusRefinement(table, whole, k);
  }

  /** A realm nobody has heard from keeps the flag it had. */
  lemma {:induction false} UnheardUntouched(table: map<u32, byte>, events: seq<Event>, k: u32)
    requires Possible(table, events) && LastHeard(events, k).None?
    ensures k in Run(table, events).table <==> k in table
    ensures k in table ==> Run(table, events).table[k] == table[k]
    ensures !Names(Run(table, events).pending, k)
  {
    if events != [] {
      var front, last := events[..|events| - 1], events[|events| - 1];
      UnheardUntouched(table, front, k);
      AlwaysTracks(table, front, k);
      if last.Drained? {
        BatchNames(last.data, Run(table, front).heartbeat, last.now, k);
      }
    }
  }

  /** The row of a realm whose id does not fit one byte is never written, whatever it or anyone else sends. */
  lemma HighRealmNeverFlagged(table: map<u32, byte>, events: seq<Event>, id: u32)
    requires Possible(table, events) && id >= 256
    ensures id in Run(table, events).table <==> id in table
    ensures id in table ==> Run(table, events).table[id] == table[id]
  {
    NeverHeard(events, id);
    UnheardUntouched(table, events, id);
  }

  lemma {:induction false} NeverHeard(events: seq<Event>, id: u32)
    requires id >= 256
    ensures LastHeard(events, id).None?
  {
    if events != [] {
      NeverHeard(events[..|events| - 1], id);
    }
  }

  /** Its beats keep another realm alive instead. */
  lemma BeatHeard(events: seq<Event>, id: u32, population: u32, at: nat)
    ensures LastHeard(events + [Datagram(Beat(id, population), at)], id % 256) == Some(at)
  {
    var longer := events + [Datagram(Beat(id, population), at)];
    assert longer[..|events|] == events;
    BeatAnnounces(id, population, Received(events));
  }

  lemma {:induction false} BatchNames(data: seq<Status>, m: map<byte, nat>, now: nat, k: u32)
    requires Batch(data, m, now)
    ensures Names(data, k) <==> k in m
    decreases |data|
  {
    if data != [] {
      BatchNames(data[1..], m - {data[0].realm}, now, k);
      assert data == [data[0]] + data[1..];
    }
  }

  /** One more event, and what it means for realm `k`. */
  lemma Extend(table: map<u32, byte>, events: seq<Event>, e: Event, k: u32) returns (longer: seq<Event>)
    requires Possible(table, events) && Enabled(Run(table, events), e)
    requires e.Drained? ==> LastNow(events) <= e.now
    ensures longer == events + [e] && Possible(table, longer)
    ensures Run(table, longer) == Step(Run(table, events), e)
    ensures LastNow(longer) == if e.Drained? then e.now else LastNow(events)
    ensures !e.Datagram? ==> LastHeard(longer, k) == LastHeard(events, k)
  {
    longer := events + [e];
    assert longer[..|longer| - 1] == events;
  }

  /** The exception is real: realm 7 is announced, goes silent, and the row that takes it offline fails; five
      seconds later an update succeeds without it, and the table still recommends it. */
  lemma FailedUpdateIsNotRepeated() returns (events: seq<Event>)
    ensures Possible(map[], events) && Run(map[], events).pending == []
    ensures events != [] && events[|events| - 1].Drained?
    ensures HeardAtDrain(events, 7) == Some(0) && LastNow(events) >= 16_000_000_000
    ensures Run(map[], events).table == map[7 := 0x20]
  {
    var announced := Datagram([0, 7], 0);
    var first, second, third := Drained(0, [Status(7, RECOMMENDED)]), Drained(16_000_000_000, [Status(7, OFFLINE)]),
      Drained(21_000_000_000, []);
    events := [];
    events := Extend(map[], events, announced, 7);
    assert events[..0] == [] && Announced(Received(events)) == Some(7);
    assert LastHeard(events, 7) == Some(0);
    assert Run(map[], events).heartbeat == map[7 := 0];
    assert Batch(first.data[1..], map[], 0);
    events := Extend(map[], events, first, 7);
    events := Extend(map[], events, Upserted, 7);
    assert Batch(second.data[1..], map[], 16_000_000_000);
    events := Extend(map[], events, second, 7);
    events := Extend(map[], events, UpdateFailed, 7);
    events := Extend(map[], events, third, 7);
  }
}
