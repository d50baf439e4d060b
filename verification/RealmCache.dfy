/** The realm list kept between queries (crates/mysql-auth/src/realms.rs, `MySQLRealmList::realms`). A call samples
    the clock, compares it with `next_update`, perhaps queries the database, and reads the list; other calls may
    run between any two of these. `db(t)` is what the database answers at time `t`. */
module RealmCache {
  import opened Bytes

  /** `queried` records when the cached list was read; it is `None` until the first refresh. */
  datatype Cache<R> = Cache(realms: seq<R>, queried: Option<nat>, nextUpdate: nat)

  function Created<R>(now: nat): Cache<R> {
    Cache([], None, now)
  }

  /** The list is the database's own answer, no older than the deadline says. */
  ghost predicate Sound<R>(db: nat -> seq<R>, interval: nat, created: nat, c: Cache<R>) {
    match c.queried
    case None => c.realms == [] && c.nextUpdate == created
    case Some(q) => c.realms == db(q) && c.nextUpdate <= q + interval
  }

  // ---- one call at a time ----

  class RealmList<R> {
    const updateInterval: nat
    var cache: Cache<R>

    constructor (interval: nat, now: nat)
      ensures updateInterval == interval && cache == Created(now)
    {
      updateInterval := interval;
      cache := Created(now);
    }

    /** An undisturbed call: `answer` is the database's reply at time `at`, if it replies. */
    method Realms(ghost db: nat -> seq<R>, ghost created: nat, now: nat, at: nat, answer: Option<seq<R>>) returns (r: seq<R>)
      requires created <= now <= at && (answer.Some? ==> answer.value == db(at))
      requires Sound(db, updateInterval, created, cache)
      modifies this
      ensures Sound(db, updateInterval, created, cache) && r == cache.realms
      ensures now > old(cache.nextUpdate) && answer.Some? ==> cache == Cache(answer.value, Some(at), now + updateInterval)
      ensures now <= old(cache.nextUpdate) || answer.None? ==> cache == old(cache)
      ensures now <= old(cache.nextUpdate) ==> now == created || exists q :: r == db(q) && now - updateInterval <= q
    {
      if now > cache.nextUpdate {
        if answer.Some? {
          cache := Cache(answer.value, Some(at), now + updateInterval);
        }
      }
      r := cache.realms;
    }
  }

  // ---- every interleaving ----

  /** Where a call stands; `now` is the time it sampled. */
  datatype Phase<R> =
    | Sampled(now: nat)
    | Querying(now: nat)
    | Fetched(now: nat, at: nat, realms: seq<R>)
    | Reading(now: nat, attempted: bool)

  datatype Reply<R> = Reply(now: nat, attempted: bool, queried: Option<nat>, realms: seq<R>)

  datatype Machine<R> = Machine(cache: Cache<R>, clock: nat, calls: map<nat, Phase<R>>, replies: seq<Reply<R>>)

  datatype Event =
    | Begin(call: nat, now: nat)
    | Check(call: nat)
    | Fetch(call: nat, at: nat)
    | FetchFails(call: nat)
    | Commit(call: nat)
    | Finish(call: nat)

  predicate Enabled<R>(m: Machine<R>, e: Event) {
    match e
    case Begin(call, now) => call !in m.calls && m.clock <= now
    case Check(call) => call in m.calls && m.calls[call].Sampled?
    case Fetch(call, at) => call in m.calls && m.calls[call].Querying? && m.clock <= at
    case FetchFails(call) => call in m.calls && m.calls[call].Querying?
    case Commit(call) => call in m.calls && m.calls[call].Fetched?
    case Finish(call) => call in m.calls && m.calls[call].Reading?
  }

  function Step<R>(db: nat -> seq<R>, interval: nat, m: Machine<R>, e: Event): Machine<R>
    requires Enabled(m, e)
  {
    match e
    case Begin(call, now) => m.(clock := now, calls := m.calls[call := Sampled(now)])
    case Check(call) =>
      var now := m.calls[call].now;
      m.(calls := m.calls[call := if now > m.cache.nextUpdate then Querying(now) else Reading(now, false)])
    case Fetch(call, at) => m.(clock := at, calls := m.calls[call := Fetched(m.calls[call].now, at, db(at))])
    case FetchFails(call) => m.(calls := m.calls[call := Reading(m.calls[call].now, true)])
    case Commit(call) =>
      var p := m.calls[call];
      m.(cache := Cache(p.realms, Some(p.at), p.now + interval), calls := m.calls[call := Reading(p.now, true)])
    case Finish(call) =>
      var p := m.calls[call];
      m.(calls := m.calls - {call}, replies := m.replies + [Reply(p.now, p.attempted, m.cache.queried, m.cache.realms)])
  }

  /** `after` is reached from `before` by these events. */
  ghost predicate Reaches<R>(db: nat -> seq<R>, interval: nat, before: Machine<R>, events: seq<Event>, after: Machine<R>)
    decreases |events|
  {
    if events == [] then after == before
    else Enabled(before, events[0]) && Reaches(db, interval, Step(db, interval, before, events[0]), events[1..], after)
  }

  ghost predicate PhaseSound<R>(db: nat -> seq<R>, created: nat, clock: nat, p: Phase<R>) {
    created <= p.now <= clock && (p.Fetched? ==> p.now <= p.at <= clock && p.realms == db(p.at))
  }

  ghost predicate Inv<R>(db: nat -> seq<R>, interval: nat, created: nat, m: Machine<R>) {
    && Sound(db, interval, created, m.cache)
    && created <= m.clock && m.cache.nextUpdate <= m.clock + interval
    && (m.cache.queried.Some? ==> m.cache.queried.value <= m.clock)
    && (forall call :: call in m.calls ==> PhaseSound(db, created, m.clock, m.calls[call]))
    && (forall r :: r in m.replies ==> r.queried.Some? ==> r.realms == db(r.queried.value) && r.queried.value <= m.clock)
  }

  lemma StepKeepsInv<R>(db: nat -> seq<R>, interval: nat, created: nat, m: Machine<R>, e: Event)
    requires Inv(db, interval, created, m) && Enabled(m, e)
    ensures Inv(db, interval, created, Step(db, interval, m, e))
  {
  }

  lemma {:induction false} RunKeepsInv<R>(db: nat -> seq<R>, interval: nat, created: nat, m: Machine<R>, events: seq<Event>,
                                          after: Machine<R>)
    requires Inv(db, interval, created, m) && Reaches(db, interval, m, events, after)
    ensures Inv(db, interval, created, after)
    decreases |events|
  {
    if events != [] {
      StepKeepsInv(db, interval, created, m, events[0]);
      RunKeepsInv(db, interval, created, Step(db, interval, m, events[0]), events[1..], after);
    }
  }

  function Start<R>(created: nat): Machine<R> {
    Machine(Created(created), created, map[], [])
  }

  /** In every interleaving, once a refresh has succeeded the cached list is what the database held at some time no
      earlier than `next_update - update_interval`; and every list ever returned was the database's own or the
      initial empty one. */
  lemma CacheBound<R>(db: nat -> seq<R>, interval: nat, created: nat, events: seq<Event>, m: Machine<R>)
    requires Reaches(db, interval, Start(created), events, m)
    ensures m.cache.queried.Some? ==>
              m.cache.realms == db(m.cache.queried.value) && m.cache.nextUpdate - interval <= m.cache.queried.value <= m.clock
    ensures m.cache.queried.None? ==> m.cache == Created(created)
    ensures forall r :: r in m.replies && r.queried.Some? ==> r.realms == db(r.queried.value)
  {
    RunKeepsInv(db, interval, created, Start(created), events, m);
  }

  /** The call has decided not to refresh, and what is cached is recent enough for it. */
  ghost predicate Served<R>(m: Machine<R>, call: nat, now: nat, cache: Cache<R>) {
    call in m.calls && m.calls[call] == Reading(now, false) && m.cache == cache
  }

  lemma {:induction false} StaysServed<R>(db: nat -> seq<R>, interval: nat, m: Machine<R>, between: seq<Event>, after: Machine<R>,
                                          call: nat, now: nat, cache: Cache<R>)
    requires Served(m, call, now, cache) && Reaches(db, interval, m, between, after)
    requires forall e :: e in between ==> !e.Commit? && e != Finish(call)
    ensures Served(after, call, now, cache)
    decreases |between|
  {
    if between != [] {
      StaysServed(db, interval, Step(db, interval, m, between[0]), between[1..], after, call, now, cache);
    }
  }

  /** A call that finds the deadline not yet passed returns a list at most `update_interval` old at its start, provided
      nobody commits between its check and its read; a list that was never queried is returned only to a call
      sampled at the very instant of creation. */
  lemma FreshReply<R>(db: nat -> seq<R>, interval: nat, created: nat, events: seq<Event>, m: Machine<R>, call: nat,
                      between: seq<Event>, after: Machine<R>)
    requires Reaches(db, interval, Start(created), events, m) && Enabled(m, Check(call))
    requires m.calls[call].now <= m.cache.nextUpdate
    requires Reaches(db, interval, Step(db, interval, m, Check(call)), between, after)
    requires forall e :: e in between ==> !e.Commit? && e != Finish(call)
    ensures Enabled(after, Finish(call))
    ensures var r := Step(db, interval, after, Finish(call)).replies[|after.replies|];
            && r.now == m.calls[call].now && !r.attempted
            && match r.queried
               case None => r.realms == [] && r.now == created
               case Some(q) => r.realms == db(q) && r.now - interval <= q
  {
    RunKeepsInv(db, interval, created, Start(created), events, m);
    StaysServed(db, interval, Step(db, interval, m, Check(call)), between, after, call, m.calls[call].now, m.cache);
  }

  /** Without overlap: started with no call under way, a call either tries to refresh or, next thing, returns a list
      at most `update_interval` old. */
  lemma SoloCall<R>(db: nat -> seq<R>, interval: nat, created: nat, events: seq<Event>, m: Machine<R>, call: nat, now: nat)
    requires Reaches(db, interval, Start(created), events, m)
    requires m.calls == map[] && m.clock <= now
    ensures var checked := Step(db, interval, Step(db, interval, m, Begin(call, now)), Check(call));
            && (checked.calls[call] == Querying(now) || checked.calls[call] == Reading(now, false))
            && (checked.calls[call] == Querying(now) <==> m.cache.nextUpdate < now)
            && (checked.calls[call] == Reading(now, false) && now > created ==>
                  m.cache.queried.Some? && m.cache.realms == db(m.cache.queried.value) && now - interval <= m.cache.queried.value)
  {
    RunKeepsInv(db, interval, created, Start(created), events, m);
  }

  /** The rest of such a call: a refresh that succeeds is returned at once and due again one interval after the call started;
      one that fails changes nothing, and the call returns what was cached. */
  lemma SoloRefresh<R>(db: nat -> seq<R>, interval: nat, m: Machine<R>, call: nat, now: nat, at: nat, queried: Machine<R>)
    requires m.calls == map[] && m.clock <= now <= at && m.cache.nextUpdate < now
    requires queried == Step(db, interval, Step(db, interval, m, Begin(call, now)), Check(call))
    ensures Enabled(queried, Fetch(call, at)) && Enabled(queried, FetchFails(call))
    ensures Step(db, interval, Step(db, interval, Step(db, interval, queried, Fetch(call, at)), Commit(call)), Finish(call))
            == Machine(Cache(db(at), Some(at), now + interval), at, map[], m.replies + [Reply(now, true, Some(at), db(at))])
    ensures Step(db, interval, Step(db, interval, queried, FetchFails(call)), Finish(call))
            == Machine(m.cache, now, map[], m.replies + [Reply(now, true, m.cache.queried, m.cache.realms)])
  {
    var fetched := Step(db, interval, Step(db, interval, queried, Fetch(call, at)), Commit(call));
    var failed := Step(db, interval, queried, FetchFails(call));
    assert fetched.calls - {call} == map[] && failed.calls - {call} == map[];
  }

  // ---- how late a refresh may come ----

  /** A refresh is committed at most `slack` after its query was answered. */
  predicate Timely<R>(slack: nat, m: Machine<R>, e: Event)
    requires Enabled(m, e)
  {
    e.Commit? ==> m.clock <= m.calls[e.call].at + slack
  }

  /** `Reaches` by timely events only. */
  ghost predicate ReachesWithin<R>(db: nat -> seq<R>, interval: nat, slack: nat, before: Machine<R>, events: seq<Event>,
                                   after: Machine<R>)
    decreases |events|
  {
    if events == [] then after == before
    else
      && Enabled(before, events[0]) && Timely(slack, before, events[0])
      && ReachesWithin(db, interval, slack, Step(db, interval, before, events[0]), events[1..], after)
  }

  /** At most `update_interval` old when the call started. */
  ghost predicate Fresh<R>(db: nat -> seq<R>, interval: nat, created: nat, now: nat, queried: Option<nat>, realms: seq<R>) {
    match queried
    case None => realms == [] && now == created
    case Some(q) => realms == db(q) && now - interval <= q
  }

  /** Every call that did not try to refresh got, or is about to get, a fresh list. */
  ghost predicate AllFresh<R>(db: nat -> seq<R>, interval: nat, created: nat, m: Machine<R>) {
    && (forall call :: call in m.calls && m.calls[call].Reading? && !m.calls[call].attempted ==>
          Fresh(db, interval, created, m.calls[call].now, m.cache.queried, m.cache.realms))
    && (forall r :: r in m.replies && !r.attempted ==> Fresh(db, interval, created, r.now, r.queried, r.realms))
  }

  lemma StepKeepsFresh<R>(db: nat -> seq<R>, interval: nat, created: nat, m: Machine<R>, e: Event)
    requires Inv(db, interval, created, m) && AllFresh(db, interval, created, m)
    requires Enabled(m, e) && Timely(interval, m, e)
    ensures AllFresh(db, interval, created, Step(db, interval, m, e))
  {
  }

  lemma {:induction false} RunKeepsFresh<R>(db: nat -> seq<R>, interval: nat, slack: nat, created: nat, m: Machine<R>,
                                            events: seq<Event>, after: Machine<R>)
    requires Inv(db, interval, created, m) && AllFresh(db, interval, created, m)
    requires slack <= interval && ReachesWithin(db, interval, slack, m, events, after)
    ensures AllFresh(db, interval, created, after)
    decreases |events|
  {
    if events != [] {
      StepKeepsInv(db, interval, created, m, events[0]);
      StepKeepsFresh(db, interval, created, m, events[0]);
      RunKeepsFresh(db, interval, slack, created, Step(db, interval, m, events[0]), events[1..], after);
    }
  }

  lemma {:induction false} Took<R>(db: nat -> seq<R>, interval: nat, slack: nat, m: Machine<R>, events: seq<Event>,
                                   after: Machine<R>, e: Event)
    returns (longer: seq<Event>, next: Machine<R>)
    requires ReachesWithin(db, interval, slack, m, events, after) && Enabled(after, e) && Timely(slack, after, e)
    ensures ReachesWithin(db, interval, slack, m, longer, next) && longer == events + [e] && next == Step(db, interval, after, e)
    decreases |events|
  {
    longer := events + [e];
    next := Step(db, interval, after, e);
    if events == [] {
      assert longer[1..] == [];
    } else {
      var _, _ := Took(db, interval, slack, Step(db, interval, m, events[0]), events[1..], after, e);
      assert longer[1..] == events[1..] + [e];
    }
  }

  lemma TwoRefreshes<R>(db: nat -> seq<R>, interval: nat, slack: nat, late: nat) returns (events: seq<Event>, m: Machine<R>)
    requires late == interval + 2 && slack > interval
    ensures ReachesWithin(db, interval, slack, Start(0), events, m)
    ensures m.cache == Cache(db(late), Some(late), late + interval) && m.clock == late && m.replies == []
    ensures 0 in m.calls && m.calls[0] == Fetched(1, 1, db(1)) && 2 !in m.calls
  {
    events, m := [], Start(0);
    events, m := Took(db, interval, slack, Start(0), events, m, Begin(0, 1));
    events, m := Took(db, interval, slack, Start(0), events, m, Check(0));
    events, m := Took(db, interval, slack, Start(0), events, m, Fetch(0, 1));
    events, m := Took(db, interval, slack, Start(0), events, m, Begin(1, late));
    events, m := Took(db, interval, slack, Start(0), events, m, Check(1));
    events, m := Took(db, interval, slack, Start(0), events, m, Fetch(1, late));
    events, m := Took(db, interval, slack, Start(0), events, m, Commit(1));
  }

  /** With overlap the bound fails for every interval, even if no refresh is later than the interval by more than one
      tick: a slow refresh overwrites a newer list after another call has checked the deadline, and that call returns
      the old list without having tried to refresh. */
  lemma OverlapBreaksBound<R>(db: nat -> seq<R>, interval: nat, slack: nat)
    returns (created: nat, events: seq<Event>, m: Machine<R>)
    requires slack > interval
    ensures ReachesWithin(db, interval, slack, Start(created), events, m)
    ensures m.replies == [Reply(interval + 2, false, Some(1), db(1))] && !AllFresh(db, interval, created, m)
  {
    created := 0;
    events, m := TwoRefreshes(db, interval, slack, interval + 2);
    events, m := Took(db, interval, slack, Start(0), events, m, Begin(2, interval + 2));
    events, m := Took(db, interval, slack, Start(0), events, m, Check(2));
    events, m := Took(db, interval, slack, Start(0), events, m, Commit(0));
    events, m := Took(db, interval, slack, Start(0), events, m, Finish(2));
    assert m.replies[0] in m.replies;
  }

  /** If this run is timely, everyone in it is served fresh lists. */
  ghost predicate KeepsBound<R>(db: nat -> seq<R>, interval: nat, slack: nat, created: nat, events: seq<Event>, m: Machine<R>) {
    ReachesWithin(db, interval, slack, Start(created), events, m) ==> AllFresh(db, interval, created, m)
  }

  /** The exact condition: with any number of overlapping calls, a call that does not try to refresh always returns a
      list at most `update_interval` old at its start, if and only if refreshes are committed within the interval. */
  lemma TimelinessExact<R(!new)>(db: nat -> seq<R>, interval: nat, slack: nat)
    ensures (forall created: nat, events, m: Machine<R> :: KeepsBound(db, interval, slack, created, events, m))
            <==> slack <= interval
  {
    if slack <= interval {
      forall created: nat, events, m: Machine<R>
        ensures KeepsBound(db, interval, slack, created, events, m)
      {
        if ReachesWithin(db, interval, slack, Start(created), events, m) {
          RunKeepsFresh(db, interval, slack, created, Start(created), events, m);
        }
      }
    } else {
      var created, events, m := OverlapBreaksBound(db, interval, slack);
      assert !KeepsBound(db, interval, slack, created, events, m);
    }
  }
}
