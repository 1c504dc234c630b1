/** The runtime's function cache: an insertion-ordered, bounded map in front of the database.
    A hit is re-validated by the row's deployment time; deployments, deletions, pauses,
    invalidations and other loads interleave at every await of every load. */
module FunctionCache {
  import opened Wrappers

  const MAX_CACHE_SIZE := 1000
  const CACHE_TTL_MS := 300_000

  datatype FnId = FnId(app: string, name: string)

  /** A row of `app_functions`; deletion is soft. */
  datatype Row = Row(code: string, deployedAt: int, deleted: bool)

  /** The columns of `apps` that decide a load. */
  datatype App = App(paused: bool, provisioned: bool)

  datatype Db = Db(functions: map<FnId, Row>, apps: map<string, App>, connections: set<string>)

  datatype Metadata = Metadata(id: FnId, code: string)

  datatype Entry = Entry(metadata: Metadata, expires: int, deployedAt: int)

  function CacheKey(id: FnId): string {
    id.app + ":" + id.name
  }

  // ---------- the ordered map ----------

  datatype Slot = Slot(key: string, entry: Entry)
  type Store = seq<Slot>

  function Find(m: Store, key: string): (r: Option<Entry>)
    ensures r.Some? ==> exists i :: 0 <= i < |m| && m[i] == Slot(key, r.value)
    ensures r.None? <==> forall i :: 0 <= i < |m| ==> m[i].key != key
  {
    if m == [] then None
    else if m[0].key == key then Some(m[0].entry)
    else
      assert forall i :: 0 <= i < |m[1..]| ==> m[1..][i] == m[i + 1];
      Find(m[1..], key)
  }

  function Remove(m: Store, key: string): Store {
    if m == [] then [] else if m[0].key == key then m[1..] else [m[0]] + Remove(m[1..], key)
  }

  /** Setting an existing key keeps its position; a new key goes last. */
  function Put(m: Store, key: string, e: Entry): Store {
    if m == [] then [Slot(key, e)]
    else if m[0].key == key then [Slot(key, e)] + m[1..]
    else [m[0]] + Put(m[1..], key, e)
  }

  /** A full cache gives up its oldest key before the new entry is set. */
  function Insert(m: Store, key: string, e: Entry): Store {
    Put(if |m| >= MAX_CACHE_SIZE then m[1..] else m, key, e)
  }

  predicate DistinctKeys(m: Store) {
    forall i, j :: 0 <= i < j < |m| ==> m[i].key != m[j].key
  }

  lemma {:induction false} PutSlots(m: Store, key: string, e: Entry)
    requires DistinctKeys(m)
    ensures DistinctKeys(Put(m, key, e))
    ensures |m| <= |Put(m, key, e)| <= |m| + 1
    ensures forall s :: s in Put(m, key, e) <==> s == Slot(key, e) || (s in m && s.key != key)
  {
    if m != [] {
      if m[0].key == key {
        assert m == [m[0]] + m[1..];
      } else {
        PutSlots(m[1..], key, e);
        assert m == [m[0]] + m[1..];
        var rest := Put(m[1..], key, e);
        forall i | 0 <= i < |rest|
          ensures rest[i].key != m[0].key
        {
          assert rest[i] in rest;
        }
      }
    }
  }

  lemma {:induction false} PutLast(m: Store, key: string, e: Entry)
    requires forall i :: 0 <= i < |m| ==> m[i].key != key
    ensures Put(m, key, e) == m + [Slot(key, e)]
  {
    if m != [] {
      assert forall i :: 0 <= i < |m[1..]| ==> m[1..][i] == m[i + 1];
      PutLast(m[1..], key, e);
    }
  }

  /** Below a thousand entries no other key is touched; at a thousand the oldest entry goes, and only
      it. A new key goes last (`InsertNew`). */
  lemma InsertMeans(m: Store, key: string, e: Entry)
    requires DistinctKeys(m) && |m| <= 1000
    ensures forall s :: s in Insert(m, key, e) <==> s == Slot(key, e) || (s in m && s.key != key && !(|m| == 1000 && s == m[0]))
  {
    if |m| == 1000 {
      assert m == [m[0]] + m[1..];
      assert forall i :: 0 <= i < |m[1..]| ==> m[1..][i] == m[i + 1];
      PutSlots(m[1..], key, e);
    } else {
      PutSlots(m, key, e);
    }
  }

  lemma InsertNew(m: Store, key: string, e: Entry)
    requires |m| <= 1000 && forall i :: 0 <= i < |m| ==> m[i].key != key
    ensures Insert(m, key, e) == (if |m| == 1000 then m[1..] else m) + [Slot(key, e)]
  {
    if |m| == 1000 {
      assert forall i :: 0 <= i < |m[1..]| ==> m[1..][i] == m[i + 1];
      PutLast(m[1..], key, e);
    } else {
      PutLast(m, key, e);
    }
  }

  lemma {:induction false} RemoveSlots(m: Store, key: string)
    requires DistinctKeys(m)
    ensures DistinctKeys(Remove(m, key)) && |Remove(m, key)| <= |m|
    ensures forall s :: s in Remove(m, key) <==> s in m && s.key != key
  {
    if m != [] {
      assert m == [m[0]] + m[1..];
      if m[0].key != key {
        RemoveSlots(m[1..], key);
        var rest := Remove(m[1..], key);
        forall i | 0 <= i < |rest|
          ensures rest[i].key != m[0].key
        {
          assert rest[i] in rest;
        }
      }
    }
  }

  // ---------- one load ----------

  datatype Deployed = Deployed(deployedAt: int, paused: bool)

  datatype Answer = Found(metadata: Metadata, fromCache: bool) | Missing | Paused | Failed

  /** Where a load is: each pair is a query in flight and its answer waiting to be processed.
      The indices name the database version a query saw. */
  datatype Phase =
    | Check(cached: Entry)
    | Checked(cached: Entry, state: Option<Deployed>, at: nat)
    | Load
    | Loaded(found: Option<Row>, at: nat)
    | LoadApp(row: Row, at: nat)
    | GotApp(row: Row, at: nat, app: Option<App>, appAt: nat)
    | Connect(row: Row, at: nat, appAt: nat)
    | Connected(row: Row, at: nat, appAt: nat, known: bool)
    | Finished(answer: Answer)

  /** `began` is the database version current when the load was called. */
  datatype Call = Call(id: FnId, began: nat, retried: bool, phase: Phase)

  predicate Live(d: Db, id: FnId) {
    id in d.functions && !d.functions[id].deleted
  }

  predicate PausedApp(d: Db, app: string) {
    app in d.apps && d.apps[app].paused
  }

  function ReadDeployed(d: Db, id: FnId): Option<Deployed> {
    if Live(d, id) then Some(Deployed(d.functions[id].deployedAt, PausedApp(d, id.app))) else None
  }

  function ReadRow(d: Db, id: FnId): Option<Row> {
    if Live(d, id) then Some(d.functions[id]) else None
  }

  function ReadApp(d: Db, app: string): Option<App> {
    if app in d.apps then Some(d.apps[app]) else None
  }

  /** The load up to its first await: an unexpired entry is re-validated, anything else is loaded. */
  function Opened(m: Store, id: FnId, began: nat, now: int): Call {
    match Find(m, CacheKey(id))
    case Some(e) => Call(id, began, false, if now < e.expires then Check(e) else Load)
    case None => Call(id, began, false, Load)
  }

  /** A query runs against database version `at`. */
  function Queried(d: Db, at: nat, c: Call): Call {
    match c.phase
    case Check(cached) => c.(phase := Checked(cached, ReadDeployed(d, c.id), at))
    case Load => c.(phase := Loaded(ReadRow(d, c.id), at))
    case LoadApp(row, rowAt) => c.(phase := GotApp(row, rowAt, ReadApp(d, c.id.app), at))
    case Connect(row, rowAt, appAt) => c.(phase := Connected(row, rowAt, appAt, c.id.app in d.connections))
    case _ => c
  }

  /** A query fails. A dead connection restarts the surrounding callback once. */
  function Broke(c: Call, dead: bool): Call {
    match c.phase
    case Check(_) => if dead && !c.retried then c.(retried := true) else c.(phase := Finished(Failed))
    case Finished(_) => c
    case Checked(_, _, _) => c
    case Loaded(_, _) => c
    case GotApp(_, _, _, _) => c
    case Connected(_, _, _, _) => c
    case _ => if dead && !c.retried then c.(retried := true, phase := Load) else c.(phase := Finished(Failed))
  }

  /** The synchronous code after an await: the new cache and the new call. */
  function Resumed(m: Store, c: Call, now: int): (Store, Call) {
    match c.phase
    case Checked(cached, state, _) =>
      if state.None? then (Remove(m, CacheKey(c.id)), c.(phase := Finished(Missing)))
      else if state.value.paused then (m, c.(phase := Finished(Paused)))
      else if state.value.deployedAt <= cached.deployedAt then (m, c.(phase := Finished(Found(cached.metadata, true))))
      else (Remove(m, CacheKey(c.id)), c.(phase := Load, retried := false))
    case Loaded(found, at) =>
      (m, c.(phase := if found.None? then Finished(Missing) else LoadApp(found.value, at)))
    case GotApp(row, at, app, appAt) =>
      (m, c.(phase := if app.None? then Finished(Missing)
                      else if !app.value.provisioned then Finished(Failed)
                      else if app.value.paused then Finished(Paused)
                      else Connect(row, at, appAt)))
    case Connected(row, at, appAt, known) =>
      if !known then (m, c.(phase := Finished(Failed)))
      else
        var metadata := Metadata(c.id, row.code);
        (Insert(m, CacheKey(c.id), Entry(metadata, now + CACHE_TTL_MS, row.deployedAt)),
         c.(phase := Finished(Found(metadata, false))))
    case _ => (m, c)
  }

  /** One run of a callback on a pooled connection: its value, or the exception it ended with. */
  datatype Attempt<T> = Done(value: T) | Threw(dead: bool)

  /** `withRuntimeClient`: the first run counts unless its connection was dead; then the second does. */
  method WithRuntimeClient<T>(run: nat -> Attempt<T>) returns (r: Attempt<T>, runs: nat)
    ensures r == if run(0) == Threw(true) then run(1) else run(0)
    ensures runs == if run(0) == Threw(true) then 2 else 1
  {
    r, runs := run(0), 0;
    for attempt := 0 to 2
      invariant runs == attempt && (attempt == 1 ==> run(0) == Threw(true))
      invariant attempt < 2
    {
      r := run(attempt);
      runs := runs + 1;
      if r.Done? {
        return;
      }
      if attempt == 1 || !r.dead {
        return;
      }
    }
  }

  /** The four outcomes of a check, for the load and for the cache. */
  lemma CheckedMeans(m: Store, c: Call, now: int)
    requires c.phase.Checked? && DistinctKeys(m)
    ensures var r := Resumed(m, c, now);
            var state := c.phase.state;
            if state.None? then r.1.phase == Finished(Missing) && Dropped(m, r.0, CacheKey(c.id))
            else if state.value.paused then r.1.phase == Finished(Paused) && r.0 == m
            else if c.phase.cached.deployedAt >= state.value.deployedAt then
              r.1.phase == Finished(Found(c.phase.cached.metadata, true)) && r.0 == m
            else r.1.phase == Load && !r.1.retried && Dropped(m, r.0, CacheKey(c.id))
  {
    RemoveSlots(m, CacheKey(c.id));
  }

  /** The key is gone and everything else as it was. */
  ghost predicate Dropped(m: Store, after: Store, key: string) {
    forall s :: s in after <==> s in m && s.key != key
  }

  /** A complete load leaves its row in the cache, to be used for five minutes. */
  lemma LoadedIsStored(m: Store, c: Call, now: int)
    requires c.phase.Connected? && c.phase.known && DistinctKeys(m) && |m| <= 1000
    ensures var r := Resumed(m, c, now);
            && Slot(CacheKey(c.id), Entry(Metadata(c.id, c.phase.row.code), now + 300_000, c.phase.row.deployedAt)) in r.0
            && r.1.phase == Finished(Found(Metadata(c.id, c.phase.row.code), false))
  {
    InsertMeans(m, CacheKey(c.id), Entry(Metadata(c.id, c.phase.row.code), now + CACHE_TTL_MS, c.phase.row.deployedAt));
  }

  /** An entry is checked before it has expired, and otherwise ignored. */
  lemma OpenedMeans(m: Store, id: FnId, began: nat, now: int)
    requires DistinctKeys(m)
    ensures var c := Opened(m, id, began, now);
            && c.id == id && c.began == began && !c.retried
            && (forall s :: s in m && s.key == CacheKey(id) ==> c.phase == if now < s.entry.expires then Check(s.entry) else Load)
            && ((forall s :: s in m ==> s.key != CacheKey(id)) ==> c.phase == Load)
  {
    var r := Find(m, CacheKey(id));
    if r.Some? {
      var i :| 0 <= i < |m| && m[i] == Slot(CacheKey(id), r.value);
      forall s | s in m && s.key == CacheKey(id) ensures s == m[i] {
        var j :| 0 <= j < |m| && m[j] == s;
      }
      assert m[i] in m;
    } else {
      forall s | s in m ensures s.key != CacheKey(id) {
        var j :| 0 <= j < |m| && m[j] == s;
      }
    }
  }

  /** The module-level cache and the code segments of `loadFunction` between its awaits. */
  class Loader {
    var cache: Store

    predicate Valid()
      reads this
    {
      DistinctKeys(cache) && |cache| <= MAX_CACHE_SIZE
    }

    constructor ()
      ensures Valid() && cache == []
    {
      cache := [];
    }

    method Begin(id: FnId, began: nat, now: int) returns (c: Call)
      requires Valid()
      ensures c == Opened(cache, id, began, now)
    {
      var cached := Find(cache, CacheKey(id));
      if cached.Some? && now < cached.value.expires {
        c := Call(id, began, false, Check(cached.value));
      } else {
        c := Call(id, began, false, Load);
      }
    }

    method Resume(c: Call, now: int) returns (next: Call)
      requires Valid()
      modifies this
      ensures Valid()
      ensures (cache, next) == Resumed(old(cache), c, now)
    {
      var key := CacheKey(c.id);
      next := c;
      match c.phase {
        case Checked(cached, state, _) =>
          if state.None? {
            Delete(key);
            next := c.(phase := Finished(Missing));
          } else if state.value.paused {
            next := c.(phase := Finished(Paused));
          } else if state.value.deployedAt <= cached.deployedAt {
            next := c.(phase := Finished(Found(cached.metadata, true)));
          } else {
            Delete(key);
            next := c.(phase := Load, retried := false);
          }
        case Loaded(found, at) =>
          next := c.(phase := if found.None? then Finished(Missing) else LoadApp(found.value, at));
        case GotApp(row, at, app, appAt) =>
          if app.None? {
            next := c.(phase := Finished(Missing));
          } else if !app.value.provisioned {
            next := c.(phase := Finished(Failed));
          } else if app.value.paused {
            next := c.(phase := Finished(Paused));
          } else {
            next := c.(phase := Connect(row, at, appAt));
          }
        case Connected(row, at, appAt, known) =>
          if !known {
            next := c.(phase := Finished(Failed));
          } else {
            var metadata := Metadata(c.id, row.code);
            if |cache| >= MAX_CACHE_SIZE {
              cache := cache[1..];
            }
            PutSlots(cache, key, Entry(metadata, now + CACHE_TTL_MS, row.deployedAt));
            cache := Put(cache, key, Entry(metadata, now + CACHE_TTL_MS, row.deployedAt));
            next := c.(phase := Finished(Found(metadata, false)));
          }
        case _ =>
      }
    }

    method Delete(key: string)
      requires Valid()
      modifies this
      ensures Valid() && cache == Remove(old(cache), key)
    {
      RemoveSlots(cache, key);
      cache := Remove(cache, key);
    }

    method Invalidate(id: FnId)
      requires Valid()
      modifies this
      ensures Valid() && cache == Remove(old(cache), CacheKey(id))
    {
      Delete(CacheKey(id));
    }
  }

  // ---------- interleavings ----------

  /** All database versions so far (the last one is current), the cache and every load ever begun. */
  datatype System = System(versions: seq<Db>, cache: Store, calls: map<nat, Call>)

  datatype Action =
    | Change(db: Db)
    | Begin(call: nat, id: FnId, now: int)
    | Query(call: nat)
    | Break(call: nat, dead: bool)
    | Resume(call: nat, now: int)
    | Invalidate(id: FnId)

  /** One step. The database may change in any way; an action that is not enabled changes nothing. */
  function Next(s: System, act: Action): System
    requires |s.versions| > 0
  {
    match act
    case Change(db) => s.(versions := s.versions + [db])
    case Begin(n, id, now) =>
      if n in s.calls then s else s.(calls := s.calls[n := Opened(s.cache, id, |s.versions| - 1, now)])
    case Query(n) =>
      if n !in s.calls then s
      else s.(calls := s.calls[n := Queried(s.versions[|s.versions| - 1], |s.versions| - 1, s.calls[n])])
    case Break(n, dead) => if n !in s.calls then s else s.(calls := s.calls[n := Broke(s.calls[n], dead)])
    case Resume(n, now) =>
      if n !in s.calls then s
      else
        var r := Resumed(s.cache, s.calls[n], now);
        s.(cache := r.0, calls := s.calls[n := r.1])
    case Invalidate(id) => s.(cache := Remove(s.cache, CacheKey(id)))
  }

  function Run(db: Db, acts: seq<Action>): (s: System)
    ensures |s.versions| > 0
  {
    if acts == [] then System([db], [], map[]) else Next(Run(db, acts[..|acts| - 1]), acts[|acts| - 1])
  }

  // ---------- histories ----------

  ghost predicate ColonFree(vs: seq<Db>) {
    forall i, id :: 0 <= i < |vs| && id in vs[i].functions ==> ':' !in id.app
  }

  predicate Usable(d: Db, app: string) {
    app in d.apps && d.apps[app].provisioned && !d.apps[app].paused
  }

  predicate Linked(d: Db, app: string) {
    app in d.connections
  }

  /** Versions a load can read one after the other to put the row of version i into the cache. */
  predicate Reads(vs: seq<Db>, id: FnId, i: int, p: int, q: int) {
    0 <= i <= p <= q < |vs| && Live(vs[i], id) && Usable(vs[p], id.app) && Linked(vs[q], id.app)
  }

  /** By version j the row of version i can be in the cache. */
  ghost predicate Cacheable(vs: seq<Db>, id: FnId, i: int, j: int) {
    exists p, q :: Reads(vs, id, i, p, q) && q <= j
  }

  /** At version j the function can be called, has other code than at version i, and is not stamped later. */
  predicate Overtaken(vs: seq<Db>, id: FnId, i: int, j: int) {
    && 0 <= i <= j < |vs| && Live(vs[i], id) && Live(vs[j], id) && !PausedApp(vs[j], id.app)
    && vs[j].functions[id].deployedAt <= vs[i].functions[id].deployedAt
    && vs[j].functions[id].code != vs[i].functions[id].code
  }

  /** No code that can be in the cache is replaced without a later stamp. */
  ghost predicate Truthful(vs: seq<Db>) {
    forall id, i, j :: Overtaken(vs, id, i, j) ==> !Cacheable(vs, id, i, j)
  }

  /** Different code comes with a later stamp. */
  ghost predicate StampsGrow(vs: seq<Db>) {
    forall id, i, j :: !Overtaken(vs, id, i, j)
  }

  lemma CacheableLater(vs: seq<Db>, id: FnId, i: int, j: int, k: int)
    requires Cacheable(vs, id, i, j) && j <= k
    ensures Cacheable(vs, id, i, k)
  {
    var p, q :| Reads(vs, id, i, p, q) && q <= j;
    assert Reads(vs, id, i, p, q) && q <= k;
  }

  lemma CacheableExtended(vs: seq<Db>, ws: seq<Db>, id: FnId, i: int, j: int)
    requires Cacheable(vs, id, i, j) && vs <= ws
    ensures Cacheable(ws, id, i, j)
  {
    var p, q :| Reads(vs, id, i, p, q) && q <= j;
    assert Reads(ws, id, i, p, q);
  }

  /** As long as every app stays set up and connected, later stamps for different code are not
      only enough but also necessary. */
  lemma TruthfulWhenReady(vs: seq<Db>)
    ensures StampsGrow(vs) ==> Truthful(vs)
    ensures (forall i, id :: 0 <= i < |vs| && Live(vs[i], id) ==> Usable(vs[i], id.app) && Linked(vs[i], id.app)) ==>
              (Truthful(vs) <==> StampsGrow(vs))
  {
    if Truthful(vs) && forall i, id :: 0 <= i < |vs| && Live(vs[i], id) ==> Usable(vs[i], id.app) && Linked(vs[i], id.app) {
      forall id, i, j | Overtaken(vs, id, i, j) ensures false {
        assert Reads(vs, id, i, i, i);
        assert Cacheable(vs, id, i, j);
      }
    }
  }

  // ---------- what every reachable state satisfies ----------

  predicate Holds(d: Db, e: Entry) {
    && Live(d, e.metadata.id)
    && d.functions[e.metadata.id].code == e.metadata.code
    && d.functions[e.metadata.id].deployedAt == e.deployedAt
  }

  /** The entry was read from the versions up to `upTo`. */
  ghost predicate Genuine(vs: seq<Db>, upTo: int, e: Entry) {
    exists i :: 0 <= i < |vs| && Holds(vs[i], e) && Cacheable(vs, e.metadata.id, i, upTo)
  }

  ghost predicate CacheInv(vs: seq<Db>, m: Store) {
    && DistinctKeys(m)
    && |m| <= MAX_CACHE_SIZE
    && forall s :: s in m ==> s.key == CacheKey(s.entry.metadata.id) && Genuine(vs, |vs| - 1, s.entry)
  }

  /** A version in the lifetime of the call. */
  predicate During(vs: seq<Db>, c: Call, i: int) {
    c.began <= i < |vs|
  }

  /** At version i the function is deployed with exactly this code. */
  predicate Current(d: Db, id: FnId, code: string) {
    Live(d, id) && d.functions[id].code == code
  }

  /** The check of version `at` lets the entry pass. */
  predicate Passes(d: Db, id: FnId, e: Entry) {
    Live(d, id) && !PausedApp(d, id.app) && d.functions[id].deployedAt <= e.deployedAt
  }

  predicate SameKey(a: FnId, b: FnId) {
    CacheKey(a) == CacheKey(b)
  }

  /** The entry a cached answer came from, and the version it was checked against. */
  ghost predicate HitFrom(vs: seq<Db>, c: Call, m: Metadata, e: Entry, at: int) {
    && e.metadata == m && SameKey(m.id, c.id) && Genuine(vs, c.began, e)
    && During(vs, c, at) && Passes(vs[at], c.id, e)
  }

  /** How an answer came about, whatever the stamps say. */
  ghost predicate Accounted(vs: seq<Db>, c: Call, a: Answer) {
    match a
    case Found(metadata, fromCache) =>
      if fromCache then exists e, at :: HitFrom(vs, c, metadata, e, at)
      else
        && metadata.id == c.id
        && (exists i :: During(vs, c, i) && Current(vs[i], c.id, metadata.code))
        && (exists j :: During(vs, c, j) && Usable(vs[j], c.id.app))
    case Missing => exists i :: During(vs, c, i) && (!Live(vs[i], c.id) || c.id.app !in vs[i].apps)
    case Paused =>
      && (exists i :: During(vs, c, i) && Live(vs[i], c.id))
      && (exists j :: During(vs, c, j) && PausedApp(vs[j], c.id.app))
    case Failed => true
  }

  /** The row was read at `at` and the app, at `appAt`, allowed the call. */
  predicate Admitted(vs: seq<Db>, c: Call, row: Row, at: int, appAt: int) {
    && c.began <= at <= appAt < |vs| && ReadRow(vs[at], c.id) == Some(row) && Usable(vs[appAt], c.id.app)
  }

  ghost predicate PhaseInv(vs: seq<Db>, c: Call) {
    match c.phase
    case Check(cached) => SameKey(cached.metadata.id, c.id)
    case Checked(cached, state, at) =>
      SameKey(cached.metadata.id, c.id) && During(vs, c, at) && state == ReadDeployed(vs[at], c.id)
    case Load => true
    case Loaded(found, at) => During(vs, c, at) && found == ReadRow(vs[at], c.id)
    case LoadApp(row, at) => During(vs, c, at) && ReadRow(vs[at], c.id) == Some(row)
    case GotApp(row, at, app, appAt) =>
      c.began <= at <= appAt < |vs| && ReadRow(vs[at], c.id) == Some(row) && app == ReadApp(vs[appAt], c.id.app)
    case Connect(row, at, appAt) => Admitted(vs, c, row, at, appAt)
    case Connected(row, at, appAt, known) =>
      Admitted(vs, c, row, at, appAt) && (known ==> exists q :: appAt <= q < |vs| && Linked(vs[q], c.id.app))
    case Finished(answer) => Accounted(vs, c, answer)
  }

  ghost predicate CallInv(vs: seq<Db>, c: Call) {
    && c.began < |vs|
    && PhaseInv(vs, c)
    && (c.phase.Check? || c.phase.Checked? ==> Genuine(vs, c.began, c.phase.cached))
  }

  ghost predicate Inv(s: System) {
    && |s.versions| > 0
    && CacheInv(s.versions, s.cache)
    && forall n :: n in s.calls ==> CallInv(s.versions, s.calls[n])
  }

  lemma QueriedKeepsCall(vs: seq<Db>, c: Call)
    requires |vs| > 0 && CallInv(vs, c)
    ensures CallInv(vs, Queried(vs[|vs| - 1], |vs| - 1, c))
  {
  }

  lemma BrokeKeepsCall(vs: seq<Db>, c: Call, dead: bool)
    requires CallInv(vs, c)
    ensures CallInv(vs, Broke(c, dead))
  {
  }

  lemma CheckedKeepsCall(vs: seq<Db>, m: Store, c: Call, now: int)
    requires CallInv(vs, c) && c.phase.Checked?
    ensures CallInv(vs, Resumed(m, c, now).1)
  {
    var e, at := c.phase.cached, c.phase.at;
    if c.phase.state.Some? && !c.phase.state.value.paused && c.phase.state.value.deployedAt <= e.deployedAt {
      assert HitFrom(vs, Resumed(m, c, now).1, e.metadata, e, at);
    } else if c.phase.state.None? {
      assert During(vs, c, at) && !Live(vs[at], c.id);
    } else {
      assert During(vs, c, at) && Live(vs[at], c.id);
    }
  }

  lemma ReadKeepsCall(vs: seq<Db>, m: Store, c: Call, now: int)
    requires CallInv(vs, c) && (c.phase.Loaded? || c.phase.GotApp?)
    ensures CallInv(vs, Resumed(m, c, now).1)
  {
  }

  lemma ConnectedKeepsCall(vs: seq<Db>, m: Store, c: Call, now: int)
    requires CallInv(vs, c) && c.phase.Connected?
    ensures CallInv(vs, Resumed(m, c, now).1)
  {
    assert Current(vs[c.phase.at], c.id, c.phase.row.code);
  }

  lemma ResumedKeepsCall(vs: seq<Db>, m: Store, c: Call, now: int)
    requires CallInv(vs, c)
    ensures CallInv(vs, Resumed(m, c, now).1)
  {
    match c.phase {
      case Checked(_, _, _) => CheckedKeepsCall(vs, m, c, now);
      case Loaded(_, _) => ReadKeepsCall(vs, m, c, now);
      case GotApp(_, _, _, _) => ReadKeepsCall(vs, m, c, now);
      case Connected(_, _, _, _) => ConnectedKeepsCall(vs, m, c, now);
      case _ =>
    }
  }

  lemma InsertKeepsCache(vs: seq<Db>, m: Store, e: Entry)
    requires CacheInv(vs, m) && Genuine(vs, |vs| - 1, e)
    ensures CacheInv(vs, Insert(m, CacheKey(e.metadata.id), e))
  {
    PutSlots(if |m| >= MAX_CACHE_SIZE then m[1..] else m, CacheKey(e.metadata.id), e);
  }

  lemma RemoveKeepsCache(vs: seq<Db>, m: Store, key: string)
    requires CacheInv(vs, m)
    ensures CacheInv(vs, Remove(m, key))
  {
    RemoveSlots(m, key);
  }

  lemma ConnectedEntry(vs: seq<Db>, c: Call, now: int)
    requires CallInv(vs, c) && c.phase.Connected? && c.phase.known
    ensures Genuine(vs, |vs| - 1, Entry(Metadata(c.id, c.phase.row.code), now + CACHE_TTL_MS, c.phase.row.deployedAt))
  {
    var q :| c.phase.appAt <= q < |vs| && Linked(vs[q], c.id.app);
    var e := Entry(Metadata(c.id, c.phase.row.code), now + CACHE_TTL_MS, c.phase.row.deployedAt);
    assert Reads(vs, c.id, c.phase.at, c.phase.appAt, q);
    assert Holds(vs[c.phase.at], e) && Cacheable(vs, c.id, c.phase.at, |vs| - 1);
  }

  lemma ResumedKeepsCache(vs: seq<Db>, m: Store, c: Call, now: int)
    requires CacheInv(vs, m) && CallInv(vs, c)
    ensures CacheInv(vs, Resumed(m, c, now).0)
  {
    match c.phase {
      case Checked(_, _, _) => RemoveKeepsCache(vs, m, CacheKey(c.id));
      case Connected(row, at, _, known) =>
        if known {
          ConnectedEntry(vs, c, now);
          InsertKeepsCache(vs, m, Entry(Metadata(c.id, row.code), now + CACHE_TTL_MS, row.deployedAt));
        }
      case _ =>
    }
  }

  lemma OpenedInv(vs: seq<Db>, m: Store, id: FnId, now: int)
    requires |vs| > 0 && CacheInv(vs, m)
    ensures CallInv(vs, Opened(m, id, |vs| - 1, now))
  {
    var r := Find(m, CacheKey(id));
    if r.Some? {
      var i :| 0 <= i < |m| && m[i] == Slot(CacheKey(id), r.value);
      assert m[i] in m;
    }
  }

  lemma GenuineLater(vs: seq<Db>, db: Db, e: Entry, upTo: int, later: int)
    requires Genuine(vs, upTo, e) && upTo <= later
    ensures Genuine(vs + [db], later, e)
  {
    var i :| 0 <= i < |vs| && Holds(vs[i], e) && Cacheable(vs, e.metadata.id, i, upTo);
    CacheableExtended(vs, vs + [db], e.metadata.id, i, upTo);
    CacheableLater(vs + [db], e.metadata.id, i, upTo, later);
    assert (vs + [db])[i] == vs[i];
  }

  lemma AccountedLater(vs: seq<Db>, db: Db, c: Call, a: Answer)
    requires Accounted(vs, c, a)
    ensures Accounted(vs + [db], c, a)
  {
    var ws := vs + [db];
    assert forall i :: During(vs, c, i) ==> During(ws, c, i) && ws[i] == vs[i];
    if a.Found? && a.fromCache {
      var e, at :| HitFrom(vs, c, a.metadata, e, at);
      GenuineLater(vs, db, e, c.began, c.began);
      assert HitFrom(ws, c, a.metadata, e, at);
    }
  }

  lemma CallLater(vs: seq<Db>, db: Db, c: Call)
    requires CallInv(vs, c)
    ensures CallInv(vs + [db], c)
  {
    match c.phase {
      case Check(e) => GenuineLater(vs, db, e, c.began, c.began);
      case Checked(e, _, _) => GenuineLater(vs, db, e, c.began, c.began);
      case Finished(a) => AccountedLater(vs, db, c, a);
      case Connected(_, _, appAt, known) => LinkedLater(vs, db, c.id.app, appAt);
      case _ =>
    }
  }

  lemma LinkedLater(vs: seq<Db>, db: Db, app: string, from: int)
    ensures 0 <= from && (exists q :: from <= q < |vs| && Linked(vs[q], app)) ==>
              exists q :: from <= q < |vs + [db]| && Linked((vs + [db])[q], app)
  {
    if q :| 0 <= from <= q < |vs| && Linked(vs[q], app) {
      assert (vs + [db])[q] == vs[q];
    }
  }

  lemma ChangeKeepsInv(s: System, db: Db)
    requires Inv(s)
    ensures Inv(s.(versions := s.versions + [db]))
  {
    forall n | n in s.calls
      ensures CallInv(s.versions + [db], s.calls[n])
    {
      CallLater(s.versions, db, s.calls[n]);
    }
    forall slot | slot in s.cache
      ensures Genuine(s.versions + [db], |s.versions|, slot.entry)
    {
      GenuineLater(s.versions, db, slot.entry, |s.versions| - 1, |s.versions|);
    }
  }

  lemma NextKeepsInv(s: System, act: Action)
    requires Inv(s)
    ensures Inv(Next(s, act))
  {
    match act {
      case Change(db) => ChangeKeepsInv(s, db);
      case Begin(n, id, now) =>
        OpenedInv(s.versions, s.cache, id, now);
        CallReplaced(s, s.cache, n, Opened(s.cache, id, |s.versions| - 1, now));
      case Query(n) =>
        if n in s.calls { QueryKeepsInv(s, n); }
      case Break(n, dead) =>
        if n in s.calls { BreakKeepsInv(s, n, dead); }
      case Resume(n, now) =>
        if n in s.calls { ResumeKeepsInv(s, n, now); }
      case Invalidate(id) =>
        RemoveKeepsCache(s.versions, s.cache, CacheKey(id));
    }
  }

  lemma QueryKeepsInv(s: System, n: nat)
    requires Inv(s) && n in s.calls
    ensures Inv(Next(s, Query(n)))
  {
    QueriedKeepsCall(s.versions, s.calls[n]);
    CallReplaced(s, s.cache, n, Queried(s.versions[|s.versions| - 1], |s.versions| - 1, s.calls[n]));
  }

  lemma BreakKeepsInv(s: System, n: nat, dead: bool)
    requires Inv(s) && n in s.calls
    ensures Inv(Next(s, Break(n, dead)))
  {
    BrokeKeepsCall(s.versions, s.calls[n], dead);
    CallReplaced(s, s.cache, n, Broke(s.calls[n], dead));
  }

  lemma ResumeKeepsInv(s: System, n: nat, now: int)
    requires Inv(s) && n in s.calls
    ensures Inv(Next(s, Resume(n, now)))
  {
    ResumedKeepsCall(s.versions, s.cache, s.calls[n], now);
    ResumedKeepsCache(s.versions, s.cache, s.calls[n], now);
    CallReplaced(s, Resumed(s.cache, s.calls[n], now).0, n, Resumed(s.cache, s.calls[n], now).1);
  }

  lemma CallReplaced(s: System, m: Store, n: nat, c: Call)
    requires Inv(s) && CacheInv(s.versions, m) && CallInv(s.versions, c)
    ensures Inv(s.(cache := m, calls := s.calls[n := c]))
  {
  }

  lemma {:induction false} RunInv(db: Db, acts: seq<Action>)
    ensures Inv(Run(db, acts))
  {
    if acts != [] {
      RunInv(db, acts[..|acts| - 1]);
      NextKeepsInv(Run(db, acts[..|acts| - 1]), acts[|acts| - 1]);
    }
  }

  /** After an invalidation the function is loaded anew, and no other entry is touched. */
  lemma InvalidatedIsReloaded(s: System, id: FnId, n: nat, now: int)
    requires Inv(s) && n !in s.calls
    ensures var t := Next(s, Invalidate(id));
            && Dropped(s.cache, t.cache, CacheKey(id)) && t.calls == s.calls && t.versions == s.versions
            && Next(t, Begin(n, id, now)).calls[n].phase == Load
  {
    RemoveSlots(s.cache, CacheKey(id));
    OpenedMeans(Remove(s.cache, CacheKey(id)), id, |s.versions| - 1, now);
  }

  // ---------- keys ----------

  /** Keys of colon-free app ids are unambiguous. */
  lemma CacheKeyInjective(a: FnId, b: FnId)
    requires ':' !in a.app && ':' !in b.app && CacheKey(a) == CacheKey(b)
    ensures a == b
  {
    var k := CacheKey(a);
    assert k[|a.app|] == ':' && k[|b.app|] == ':';
    if |a.app| != |b.app| {
      assert false;
    }
    assert a.app == k[..|a.app|] && b.app == k[..|b.app|];
    assert a.name == k[|a.app| + 1..] && b.name == k[|b.app| + 1..];
  }

  /** Two apps have functions with a common key exactly when one id, with a colon, starts the other. */
  lemma CacheKeysCollideIff(a: string, b: string)
    requires a != b
    ensures (exists x, y :: SameKey(FnId(a, x), FnId(b, y))) <==> a + ":" <= b || b + ":" <= a
  {
    if x, y :| SameKey(FnId(a, x), FnId(b, y)) {
      var k := CacheKey(FnId(a, x));
      assert k[..|a| + 1] == a + ":" && k[..|b| + 1] == b + ":";
      assert a == k[..|a|] && b == k[..|b|];
    }
    if a + ":" <= b {
      var rest := b[|a| + 1..];
      assert b == a + ":" + rest;
      assert a + ":" + (rest + ":" + "") == b + ":" + "";
      assert SameKey(FnId(a, rest + ":" + ""), FnId(b, ""));
    }
    if b + ":" <= a {
      var rest := a[|b| + 1..];
      assert a == b + ":" + rest;
      assert b + ":" + (rest + ":" + "") == a + ":" + "";
      assert SameKey(FnId(a, ""), FnId(b, rest + ":" + ""));
    }
  }

  /** As the platform issues them. */
  predicate IsAppId(s: string) {
    |s| == 16 && s[..4] == "app_" && forall i :: 4 <= i < 16 ==> '0' <= s[i] <= '9' || 'a' <= s[i] <= 'z'
  }

  lemma AppIdsNeverCollide(a: string, b: string, x: string, y: string)
    requires IsAppId(a) && IsAppId(b) && SameKey(FnId(a, x), FnId(b, y))
    ensures a == b && x == y
  {
    assert forall i :: 0 <= i < 4 ==> a[i] == a[..4][i] && b[i] == b[..4][i];
    CacheKeyInjective(FnId(a, x), FnId(b, y));
  }

  // ---------- when a verified hit is current ----------

  /** The next step of the load answers from the cache. */
  predicate IsHit(c: Call) {
    && c.phase.Checked? && c.phase.state.Some? && !c.phase.state.value.paused
    && c.phase.state.value.deployedAt <= c.phase.cached.deployedAt
  }

  predicate HitIsCurrent(vs: seq<Db>, c: Call)
    requires c.phase.Checked?
  {
    c.phase.cached.metadata.id == c.id && c.phase.at < |vs| && Current(vs[c.phase.at], c.id, c.phase.cached.metadata.code)
  }

  /** The heart of the cache: an entry that passes the check carries that row's code, unless the
      history replaced code without a later stamp. */
  lemma VerifiedHitIsCurrent(vs: seq<Db>, began: nat, id: FnId, e: Entry, at: nat)
    requires ColonFree(vs) && Genuine(vs, began, e) && SameKey(e.metadata.id, id)
    requires began <= at < |vs| && Passes(vs[at], id, e)
    ensures e.metadata.id == id
    ensures Truthful(vs) ==> Current(vs[at], id, e.metadata.code)
  {
    var i :| 0 <= i < |vs| && Holds(vs[i], e) && Cacheable(vs, e.metadata.id, i, began);
    CacheKeyInjective(e.metadata.id, id);
    CacheableLater(vs, id, i, began, at);
    if vs[at].functions[id].code != e.metadata.code {
      CacheableBefore(vs, id, i, at);
      assert Overtaken(vs, id, i, at);
    }
  }

  lemma CacheableBefore(vs: seq<Db>, id: FnId, i: int, j: int)
    requires Cacheable(vs, id, i, j)
    ensures 0 <= i <= j && i < |vs| && Live(vs[i], id)
  {
    var p, q :| Reads(vs, id, i, p, q) && q <= j;
  }

  ghost predicate StaleHit(db: Db, acts: seq<Action>, n: nat) {
    var s := Run(db, acts);
    n in s.calls && IsHit(s.calls[n]) && !HitIsCurrent(s.versions, s.calls[n])
  }

  lemma NoStaleHit(db: Db, acts: seq<Action>, n: nat)
    requires ColonFree(Run(db, acts).versions) && Truthful(Run(db, acts).versions)
    ensures !StaleHit(db, acts, n)
  {
    var s := Run(db, acts);
    RunInv(db, acts);
    if n in s.calls && IsHit(s.calls[n]) {
      var c := s.calls[n];
      VerifiedHitIsCurrent(s.versions, c.began, c.id, c.phase.cached, c.phase.at);
    }
  }

  lemma TruthfulPrefix(vs: seq<Db>, ws: seq<Db>)
    requires vs <= ws && Truthful(ws) && ColonFree(ws)
    ensures Truthful(vs) && ColonFree(vs)
  {
    forall id, i, j | Overtaken(vs, id, i, j) ensures !Cacheable(vs, id, i, j) {
      assert Overtaken(ws, id, i, j);
      if Cacheable(vs, id, i, j) {
        CacheableExtended(vs, ws, id, i, j);
      }
    }
    forall i, id | 0 <= i < |vs| && id in vs[i].functions ensures ':' !in id.app {
      assert vs[i] == ws[i];
    }
  }

  // A run that is made to read given versions.

  lemma RunSnoc(db: Db, acts: seq<Action>, act: Action)
    ensures Run(db, acts + [act]) == Next(Run(db, acts), act)
  {
    assert (acts + [act])[..|acts|] == acts;
  }

  /** The database moves on to version j. */
  lemma {:induction false} Advance(vs: seq<Db>, acts: seq<Action>, s: System, i: nat, j: nat) returns (more: seq<Action>)
    requires i <= j < |vs|
    requires Run(vs[0], acts) == s && s.versions == vs[..i + 1]
    ensures Run(vs[0], more) == s.(versions := vs[..j + 1])
  {
    if i == j {
      more := acts;
    } else {
      var so := Advance(vs, acts, s, i, j - 1);
      more := so + [Change(vs[j])];
      RunSnoc(vs[0], so, Change(vs[j]));
      assert vs[..j] + [vs[j]] == vs[..j + 1];
    }
  }

  function Only(vs: seq<Db>, i: nat, m: Store, c: Call): System
    requires i < |vs|
  {
    System(vs[..i + 1], m, map[0 := c])
  }

  lemma Processed(vs: seq<Db>, acts: seq<Action>, i: nat, m: Store, c: Call) returns (more: seq<Action>)
    requires i < |vs| && Run(vs[0], acts) == Only(vs, i, m, c)
    ensures var r := Resumed(m, Queried(vs[i], i, c), 0);
            Run(vs[0], more) == Only(vs, i, r.0, r.1)
  {
    var q := Queried(vs[i], i, c);
    RunSnoc(vs[0], acts, Query(0));
    OnlyQueried(vs, i, m, c);
    RunSnoc(vs[0], acts + [Query(0)], Resume(0, 0));
    OnlyResumed(vs, i, m, q);
    more := acts + [Query(0)] + [Resume(0, 0)];
  }

  lemma OnlyQueried(vs: seq<Db>, i: nat, m: Store, c: Call)
    requires i < |vs|
    ensures Next(Only(vs, i, m, c), Query(0)) == Only(vs, i, m, Queried(vs[i], i, c))
  {
    assert map[0 := c][0 := Queried(vs[i], i, c)] == map[0 := Queried(vs[i], i, c)];
  }

  lemma OnlyResumed(vs: seq<Db>, i: nat, m: Store, c: Call)
    requires i < |vs|
    ensures Next(Only(vs, i, m, c), Resume(0, 0)) == Only(vs, i, Resumed(m, c, 0).0, Resumed(m, c, 0).1)
  {
    var r := Resumed(m, c, 0).1;
    assert map[0 := c][0 := r] == map[0 := r];
  }

  lemma StartLoad(vs: seq<Db>, id: FnId, i: nat) returns (acts: seq<Action>)
    requires i < |vs| && Live(vs[i], id)
    ensures Run(vs[0], acts) == Only(vs, i, [], Call(id, i, false, LoadApp(vs[i].functions[id], i)))
  {
    assert vs[..1] == [vs[0]];
    acts := Advance(vs, [], System([vs[0]], [], map[]), 0, i);
    RunSnoc(vs[0], acts, Begin(0, id, 0));
    acts := acts + [Begin(0, id, 0)];
    assert Run(vs[0], acts) == Only(vs, i, [], Call(id, i, false, Load));
    acts := Processed(vs, acts, i, [], Call(id, i, false, Load));
  }

  function EntryAt(d: Db, id: FnId): Entry
    requires Live(d, id)
  {
    Entry(Metadata(id, d.functions[id].code), CACHE_TTL_MS, d.functions[id].deployedAt)
  }

  /** A first load that reads its row at version i, the app at p and the connection at q. */
  lemma FirstLoad(vs: seq<Db>, id: FnId, i: nat, p: nat, q: nat) returns (acts: seq<Action>, s: System)
    requires Reads(vs, id, i, p, q)
    ensures Run(vs[0], acts) == s && s.versions == vs[..q + 1] && 1 !in s.calls
    ensures s.cache == [Slot(CacheKey(id), EntryAt(vs[i], id))]
  {
    var row := vs[i].functions[id];
    ghost var c1, c2 := Call(id, i, false, LoadApp(row, i)), Call(id, i, false, Connect(row, i, p));
    acts := StartLoad(vs, id, i);
    acts := MovedAndProcessed(vs, acts, i, p, c1);
    RowThenApp(vs, id, i, p, c1);
    acts := MovedAndProcessed(vs, acts, p, q, c2);
    ConnectionLast(vs, id, i, p, q, c2);
    s := Run(vs[0], acts);
  }

  lemma MovedAndProcessed(vs: seq<Db>, acts: seq<Action>, i: nat, j: nat, c: Call) returns (more: seq<Action>)
    requires i <= j < |vs| && Run(vs[0], acts) == Only(vs, i, [], c)
    ensures var r := Resumed([], Queried(vs[j], j, c), 0);
            Run(vs[0], more) == Only(vs, j, r.0, r.1)
  {
    more := Advance(vs, acts, Only(vs, i, [], c), i, j);
    more := Processed(vs, more, j, [], c);
  }

  lemma RowThenApp(vs: seq<Db>, id: FnId, i: nat, p: nat, c: Call)
    requires i <= p < |vs| && Live(vs[i], id) && Usable(vs[p], id.app)
    requires c == Call(id, i, false, LoadApp(vs[i].functions[id], i))
    ensures Resumed([], Queried(vs[p], p, c), 0) == ([], Call(id, i, false, Connect(vs[i].functions[id], i, p)))
  {
  }

  lemma ConnectionLast(vs: seq<Db>, id: FnId, i: nat, p: nat, q: nat, c: Call)
    requires i < |vs| && q < |vs| && Live(vs[i], id) && Linked(vs[q], id.app)
    requires c == Call(id, i, false, Connect(vs[i].functions[id], i, p))
    ensures Resumed([], Queried(vs[q], q, c), 0).0 == [Slot(CacheKey(id), EntryAt(vs[i], id))]
  {
  }

  /** A second load at version j finds the row of version i in the cache and checks it. */
  lemma CheckReached(vs: seq<Db>, id: FnId, i: nat, j: nat) returns (acts: seq<Action>)
    requires Cacheable(vs, id, i, j) && j < |vs| && Live(vs[i], id) && Passes(vs[j], id, EntryAt(vs[i], id))
    ensures Run(vs[0], acts).versions == vs[..j + 1] && 1 in Run(vs[0], acts).calls
    ensures Run(vs[0], acts).calls[1] ==
            Call(id, j, false, Checked(EntryAt(vs[i], id), Some(Deployed(vs[j].functions[id].deployedAt, false)), j))
  {
    var p, q :| Reads(vs, id, i, p, q) && q <= j;
    var s;
    acts, s := FirstLoad(vs, id, i, p, q);
    acts := Advance(vs, acts, s, q, j);
    var t := s.(versions := vs[..j + 1]);
    RunSnoc(vs[0], acts, Begin(1, id, 0));
    RunSnoc(vs[0], acts + [Begin(1, id, 0)], Query(1));
    acts := acts + [Begin(1, id, 0)] + [Query(1)];
    assert Opened(t.cache, id, j, 0) == Call(id, j, false, Check(EntryAt(vs[i], id)));
  }

  /** The run goes on to answer that load from the cache. */
  lemma HitReached(vs: seq<Db>, acts: seq<Action>, id: FnId, i: nat, j: nat)
    requires i < |vs| && j < |vs| && Live(vs[i], id) && Passes(vs[j], id, EntryAt(vs[i], id))
    requires Run(vs[0], acts).versions == vs[..j + 1] && 1 in Run(vs[0], acts).calls
    requires Run(vs[0], acts).calls[1] ==
             Call(id, j, false, Checked(EntryAt(vs[i], id), Some(Deployed(vs[j].functions[id].deployedAt, false)), j))
    ensures var s := Run(vs[0], acts + [Resume(1, 0)]);
            && s.versions == vs[..j + 1] && 1 in s.calls
            && s.calls[1] == Call(id, j, false, Finished(Found(Metadata(id, vs[i].functions[id].code), true)))
  {
    RunSnoc(vs[0], acts, Resume(1, 0));
  }

  /** Code that can be cached and is then replaced without a later stamp is served again. */
  lemma OvertakenIsServed(vs: seq<Db>, id: FnId, i: nat, j: nat) returns (acts: seq<Action>)
    requires Overtaken(vs, id, i, j) && Cacheable(vs, id, i, j)
    ensures Run(vs[0], acts).versions == vs[..j + 1] && StaleHit(vs[0], acts, 1)
    ensures Run(vs[0], acts + [Resume(1, 0)]).versions == vs[..j + 1] && 1 in Run(vs[0], acts + [Resume(1, 0)]).calls
    ensures Run(vs[0], acts + [Resume(1, 0)]).calls[1] ==
            Call(id, j, false, Finished(Found(Metadata(id, vs[i].functions[id].code), true)))
  {
    acts := CheckReached(vs, id, i, j);
    HitReached(vs, acts, id, i, j);
    assert !Current(vs[j], id, EntryAt(vs[i], id).metadata.code);
  }

  /** Whatever happened to an app since its function was cached: if its row still passes the check
      but the plain read would not find it, a load of the now unchanged database answers differently. */
  lemma UnconfiguredIsServed(before: Db, after: Db, id: FnId) returns (acts: seq<Action>)
    requires Live(before, id) && Usable(before, id.app) && Linked(before, id.app)
    requires Passes(after, id, EntryAt(before, id)) && !Configured(after, id.app)
    ensures var s := Run(before, acts);
            && s.versions == [before, after] && 1 in s.calls && s.calls[1].began == 1
            && s.calls[1].phase == Finished(Found(Metadata(id, before.functions[id].code), true))
            && !PlainLoad(after, id).Found?
  {
    var vs := [before, after];
    assert Reads(vs, id, 0, 0, 0);
    assert Cacheable(vs, id, 0, 1);
    acts := CheckReached(vs, id, 0, 1);
    HitReached(vs, acts, id, 0, 1);
    assert vs[..2] == vs;
    acts := acts + [Resume(1, 0)];
  }

  /** An app whose database is being set up again: its function is still served from the cache,
      where the plain read fails. */
  lemma UnprovisionedIsServed() returns (acts: seq<Action>)
    ensures var id := FnId("app_0", "f");
            var before := Db(map[id := Row("code", 5, false)], map["app_0" := App(false, true)], {"app_0"});
            var after := before.(apps := map["app_0" := App(false, false)]);
            var s := Run(before, acts);
            && s.versions == [before, after] && 1 in s.calls && s.calls[1].began == 1
            && s.calls[1].phase == Finished(Found(Metadata(id, "code"), true)) && PlainLoad(after, id) == Failed
  {
    var id := FnId("app_0", "f");
    var before := Db(map[id := Row("code", 5, false)], map["app_0" := App(false, true)], {"app_0"});
    acts := UnconfiguredIsServed(before, before.(apps := map["app_0" := App(false, false)]), id);
  }

  /** Over a given history of the database, every verified hit of every run returns current code
      if and only if no code that can be in the cache is replaced without a later stamp. */
  lemma HitsAreCurrentIff(vs: seq<Db>)
    requires |vs| > 0 && ColonFree(vs)
    ensures (forall acts, n :: Run(vs[0], acts).versions <= vs ==> !StaleHit(vs[0], acts, n)) <==> Truthful(vs)
  {
    if Truthful(vs) {
      forall acts, n | Run(vs[0], acts).versions <= vs ensures !StaleHit(vs[0], acts, n) {
        TruthfulPrefix(Run(vs[0], acts).versions, vs);
        NoStaleHit(vs[0], acts, n);
      }
    } else {
      var id, i, j :| Overtaken(vs, id, i, j) && Cacheable(vs, id, i, j);
      var acts := OvertakenIsServed(vs, id, i, j);
      assert Run(vs[0], acts).versions <= vs && StaleHit(vs[0], acts, 1);
    }
  }

  /** Two deployments whose stamps are in the wrong order, as when the one that began first commits
      last: after the second the first is still served. */
  lemma LateCommitServesOldCode() returns (acts: seq<Action>)
    ensures var id := FnId("app_0", "f");
            var apps := map["app_0" := App(false, true)];
            var before := Db(map[id := Row("old", 6, false)], apps, {"app_0"});
            var after := Db(map[id := Row("new", 5, false)], apps, {"app_0"});
            var s := Run(before, acts);
            && s.versions == [before, after] && 1 in s.calls && s.calls[1].began == 1
            && s.calls[1].phase == Finished(Found(Metadata(id, "old"), true))
  {
    var id := FnId("app_0", "f");
    var apps := map["app_0" := App(false, true)];
    var before := Db(map[id := Row("old", 6, false)], apps, {"app_0"});
    var after := Db(map[id := Row("new", 5, false)], apps, {"app_0"});
    var vs := [before, after];
    assert Reads(vs, id, 0, 0, 0);
    assert Cacheable(vs, id, 0, 1);
    assert Overtaken(vs, id, 0, 1);
    acts := OvertakenIsServed(vs, id, 0, 1);
    RunSnoc(before, acts, Resume(1, 0));
    assert vs[..2] == vs;
    acts := acts + [Resume(1, 0)];
  }

  // ---------- answers ----------

  /** The app is not provisioned, or its database connection is not known. */
  predicate Unready(d: Db, app: string) {
    (app in d.apps && !d.apps[app].provisioned) || !Linked(d, app)
  }

  /** A query of load n fails. */
  predicate Breaks(act: Action, n: nat) {
    act.Break? && act.call == n
  }

  /** No query of load n fails, or just one, on a dead connection. */
  predicate Sound(acts: seq<Action>, n: nat) {
    && (forall k :: 0 <= k < |acts| && Breaks(acts[k], n) ==> acts[k].dead)
    && forall j, k :: 0 <= j < k < |acts| ==> !(Breaks(acts[j], n) && Breaks(acts[k], n))
  }

  predicate Unbroken(acts: seq<Action>, n: nat) {
    forall k :: 0 <= k < |acts| ==> !Breaks(acts[k], n)
  }

  lemma SoundPrefix(acts: seq<Action>, n: nat)
    requires acts != [] && Sound(acts, n)
    ensures Sound(acts[..|acts| - 1], n)
    ensures Breaks(acts[|acts| - 1], n) ==> acts[|acts| - 1].dead && Unbroken(acts[..|acts| - 1], n)
  {
    var init := acts[..|acts| - 1];
    assert forall k :: 0 <= k < |init| ==> init[k] == acts[k];
  }

  lemma NextUnbroken(s: System, act: Action, n: nat)
    requires |s.versions| > 0 && (n in s.calls ==> !s.calls[n].retried) && !Breaks(act, n)
    ensures n in Next(s, act).calls ==> !Next(s, act).calls[n].retried
  {
  }

  /** A load retries only after a failed query. */
  lemma {:induction false} UnbrokenIsFresh(db: Db, acts: seq<Action>, n: nat)
    requires Unbroken(acts, n)
    ensures n in Run(db, acts).calls ==> !Run(db, acts).calls[n].retried
  {
    if acts != [] {
      var init := acts[..|acts| - 1];
      assert forall k :: 0 <= k < |init| ==> init[k] == acts[k];
      UnbrokenIsFresh(db, init, n);
      NextUnbroken(Run(db, init), acts[|acts| - 1], n);
    }
  }

  ghost predicate FailReason(vs: seq<Db>, c: Call) {
    exists i :: During(vs, c, i) && Unready(vs[i], c.id.app)
  }

  ghost predicate FailInv(vs: seq<Db>, c: Call) {
    (c.phase.Connected? && !c.phase.known) || c.phase == Finished(Failed) ==> FailReason(vs, c)
  }

  lemma FailReasonLater(vs: seq<Db>, db: Db, c: Call)
    requires FailReason(vs, c)
    ensures FailReason(vs + [db], c)
  {
    var i :| During(vs, c, i) && Unready(vs[i], c.id.app);
    assert During(vs + [db], c, i) && (vs + [db])[i] == vs[i];
  }

  lemma QueriedFails(vs: seq<Db>, c: Call)
    requires |vs| > 0 && CallInv(vs, c) && FailInv(vs, c)
    ensures FailInv(vs, Queried(vs[|vs| - 1], |vs| - 1, c))
  {
    var q := Queried(vs[|vs| - 1], |vs| - 1, c);
    if q.phase.Connected? && !q.phase.known && c.phase.Connect? {
      assert During(vs, q, |vs| - 1) && Unready(vs[|vs| - 1], q.id.app);
    }
  }

  lemma ResumedFails(vs: seq<Db>, m: Store, c: Call, now: int)
    requires CallInv(vs, c) && FailInv(vs, c)
    ensures FailInv(vs, Resumed(m, c, now).1)
  {
    var r := Resumed(m, c, now).1;
    if r.phase == Finished(Failed) {
      if c.phase.GotApp? {
        assert During(vs, r, c.phase.appAt) && Unready(vs[c.phase.appAt], r.id.app);
      } else {
        var i :| During(vs, c, i) && Unready(vs[i], c.id.app);
        assert During(vs, r, i);
      }
    }
  }

  /** A first dead connection keeps the load going. */
  lemma BrokeFails(vs: seq<Db>, c: Call)
    requires FailInv(vs, c) && !c.retried
    ensures FailInv(vs, Broke(c, true))
  {
    var r := Broke(c, true);
    if (r.phase.Connected? && !r.phase.known) || r.phase == Finished(Failed) {
      var i :| During(vs, c, i) && Unready(vs[i], c.id.app);
      assert During(vs, r, i);
    }
  }

  lemma NextFails(s: System, act: Action, n: nat)
    requires Inv(s) && (n in s.calls ==> FailInv(s.versions, s.calls[n]))
    requires Breaks(act, n) ==> act.dead && (n in s.calls ==> !s.calls[n].retried)
    ensures n in Next(s, act).calls ==> FailInv(Next(s, act).versions, Next(s, act).calls[n])
  {
    if n in s.calls {
      var c := s.calls[n];
      match act {
        case Change(db) =>
          if FailReason(s.versions, c) { FailReasonLater(s.versions, db, c); }
        case Query(k) =>
          if k == n { QueriedFails(s.versions, c); }
        case Resume(k, now) =>
          if k == n { ResumedFails(s.versions, s.cache, c, now); }
        case Break(k, _) =>
          if k == n { BrokeFails(s.versions, c); }
        case _ =>
      }
    }
  }

  /** A load fails only because of what it read, unless two of its queries fail or one fails for
      another reason than a dead connection: a single dead connection never shows. */
  lemma {:induction false} FailedMeans(db: Db, acts: seq<Action>, n: nat)
    requires Sound(acts, n)
    ensures n in Run(db, acts).calls ==> FailInv(Run(db, acts).versions, Run(db, acts).calls[n])
  {
    if acts != [] {
      var init, last := acts[..|acts| - 1], acts[|acts| - 1];
      SoundPrefix(acts, n);
      FailedMeans(db, init, n);
      RunInv(db, init);
      if Breaks(last, n) { UnbrokenIsFresh(db, init, n); }
      NextFails(Run(db, init), last, n);
    }
  }

  predicate AwaitsQuery(c: Call) {
    c.phase.Check? || c.phase.Load? || c.phase.LoadApp? || c.phase.Connect?
  }

  /** The other half: a query that fails for another reason, and the second dead connection in a
      row, end the load. The first makes the check, or the whole read, start again. */
  lemma RetriesOnce(s: System, n: nat)
    requires |s.versions| > 0 && n in s.calls && AwaitsQuery(s.calls[n])
    ensures Next(s, Break(n, false)).calls[n].phase == Finished(Failed)
    ensures Next(Next(s, Break(n, true)), Break(n, true)).calls[n].phase == Finished(Failed)
    ensures !s.calls[n].retried ==>
              Next(s, Break(n, true)).calls[n].phase == if s.calls[n].phase.Check? then s.calls[n].phase else Load
  {
  }

  predicate HasFunction(d: Db, id: FnId) {
    id in d.functions && d.functions[id].deleted == false
  }

  predicate HasCode(d: Db, id: FnId, code: string) {
    HasFunction(d, id) && d.functions[id].code == code
  }

  predicate IsPaused(d: Db, app: string) {
    app in d.apps && d.apps[app].paused == true
  }

  /** What an answer says about the versions during the load; `broken` if more of its queries failed
      than one on a dead connection. */
  ghost predicate Justified(vs: seq<Db>, c: Call, a: Answer, broken: bool) {
    match a
    case Found(metadata, fromCache) =>
      && metadata.id == c.id
      && (exists i :: During(vs, c, i) && HasCode(vs[i], c.id, metadata.code)
                      && (fromCache ==> !IsPaused(vs[i], c.id.app)))
      && (exists j :: During(vs, c, j) && !IsPaused(vs[j], c.id.app))
    case Missing => exists i :: During(vs, c, i) && (!HasFunction(vs[i], c.id) || c.id.app !in vs[i].apps)
    case Paused =>
      && (exists i :: During(vs, c, i) && HasFunction(vs[i], c.id))
      && (exists j :: During(vs, c, j) && IsPaused(vs[j], c.id.app))
    case Failed => broken || FailReason(vs, c)
  }

  lemma AccountedIsJustified(vs: seq<Db>, c: Call, a: Answer)
    requires ColonFree(vs) && Truthful(vs) && Accounted(vs, c, a) && !a.Failed?
    ensures Justified(vs, c, a, false)
  {
    if a.Found? {
      if a.fromCache {
        var e, at :| HitFrom(vs, c, a.metadata, e, at);
        VerifiedHitIsCurrent(vs, c.began, c.id, e, at);
        assert During(vs, c, at) && HasCode(vs[at], c.id, a.metadata.code) && !IsPaused(vs[at], c.id.app);
      } else {
        var i :| During(vs, c, i) && Current(vs[i], c.id, a.metadata.code);
        assert HasCode(vs[i], c.id, a.metadata.code);
        var j :| During(vs, c, j) && Usable(vs[j], c.id.app);
        assert During(vs, c, j) && !IsPaused(vs[j], c.id.app);
      }
    } else if a.Missing? {
      var i :| During(vs, c, i) && (!Live(vs[i], c.id) || c.id.app !in vs[i].apps);
      assert !HasFunction(vs[i], c.id) || c.id.app !in vs[i].apps;
    } else {
      var i :| During(vs, c, i) && Live(vs[i], c.id);
      var j :| During(vs, c, j) && PausedApp(vs[j], c.id.app);
      assert HasFunction(vs[i], c.id) && IsPaused(vs[j], c.id.app);
    }
  }

  /** Under every interleaving, whatever subset of invalidations is delivered: a function a load
      returns has the code that was deployed at some instant of that load, and the app was not
      paused at an instant of that load (the same instant when the cache answered); a miss, a pause
      or a failure is likewise explained by a database version during the load, or by more failed
      queries of this load than one dead connection. The cache stays bounded. */
  lemma CacheLinearizable(db: Db, acts: seq<Action>, n: nat)
    requires ColonFree(Run(db, acts).versions) && Truthful(Run(db, acts).versions)
    requires n in Run(db, acts).calls && Run(db, acts).calls[n].phase.Finished?
    ensures Justified(Run(db, acts).versions, Run(db, acts).calls[n], Run(db, acts).calls[n].phase.answer, !Sound(acts, n))
    ensures |Run(db, acts).cache| <= 1000
  {
    RunInv(db, acts);
    var s := Run(db, acts);
    if s.calls[n].phase.answer.Failed? {
      if Sound(acts, n) { FailedMeans(db, acts, n); }
    } else {
      AccountedIsJustified(s.versions, s.calls[n], s.calls[n].phase.answer);
    }
  }

  // ---------- a load while the database stands still ----------

  /** The load without a cache, against one database version. */
  function PlainLoad(d: Db, id: FnId): Answer {
    if !Live(d, id) || id.app !in d.apps then Missing
    else if !d.apps[id.app].provisioned then Failed
    else if d.apps[id.app].paused then Paused
    else if !Linked(d, id.app) then Failed
    else Found(Metadata(id, d.functions[id].code), false)
  }

  /** Equal but for where the function came from. */
  predicate SameAnswer(a: Answer, b: Answer) {
    if a.Found? && b.Found? then a.metadata == b.metadata else a == b
  }

  /** The load reads everything from the database: no usable entry, or one the check rejects. */
  predicate ReadsAll(cached: Option<Entry>, now: int, d: Db, id: FnId) {
    || cached.None? || now >= cached.value.expires
    || (Live(d, id) && !PausedApp(d, id.app) && cached.value.deployedAt < d.functions[id].deployedAt)
  }

  /** The app is provisioned and, unless it is paused, connected. */
  predicate Configured(d: Db, app: string) {
    app in d.apps && d.apps[app].provisioned && (d.apps[app].paused || Linked(d, app))
  }

  function CheckAnswer(d: Db, id: FnId, e: Entry): Answer {
    if !Live(d, id) then Missing else if PausedApp(d, id.app) then Paused else Found(e.metadata, true)
  }

  /** Where a load that began with `cached` in the cache can be when it has read nothing but `d`. */
  ghost predicate QuietInv(cached: Option<Entry>, now: int, id: FnId, d: Db, c: Call) {
    var all := ReadsAll(cached, now, d, id);
    && c.id == id
    && match c.phase
       case Check(e) => cached == Some(e) && now < e.expires
       case Checked(e, state, _) => cached == Some(e) && now < e.expires && state == ReadDeployed(d, id)
       case Load => all
       case Loaded(found, _) => all && found == ReadRow(d, id)
       case LoadApp(row, _) => all && ReadRow(d, id) == Some(row)
       case GotApp(row, _, app, _) => all && ReadRow(d, id) == Some(row) && app == ReadApp(d, id.app)
       case Connect(row, _, _) => all && ReadRow(d, id) == Some(row) && Usable(d, id.app)
       case Connected(row, _, _, known) => all && ReadRow(d, id) == Some(row) && Usable(d, id.app) && known == Linked(d, id.app)
       case Finished(a) => if all then a == PlainLoad(d, id) else cached.Some? && a == CheckAnswer(d, id, cached.value)
  }

  lemma QuietQueried(cached: Option<Entry>, now: int, id: FnId, d: Db, at: nat, c: Call)
    requires QuietInv(cached, now, id, d, c)
    ensures QuietInv(cached, now, id, d, Queried(d, at, c))
  {
  }

  lemma QuietResumed(cached: Option<Entry>, now: int, id: FnId, d: Db, m: Store, c: Call, later: int)
    requires QuietInv(cached, now, id, d, c)
    ensures QuietInv(cached, now, id, d, Resumed(m, c, later).1)
  {
  }

  lemma QuietBroke(cached: Option<Entry>, now: int, id: FnId, d: Db, c: Call)
    requires QuietInv(cached, now, id, d, c) && !c.retried
    ensures QuietInv(cached, now, id, d, Broke(c, true))
  {
  }

  lemma QuietNext(s: System, act: Action, n: nat, cached: Option<Entry>, now: int, id: FnId, d: Db)
    requires |s.versions| > 0 && s.versions[|s.versions| - 1] == d
    requires Breaks(act, n) ==> act.dead && (n in s.calls ==> !s.calls[n].retried)
    requires n in s.calls && QuietInv(cached, now, id, d, s.calls[n])
    ensures n in Next(s, act).calls && QuietInv(cached, now, id, d, Next(s, act).calls[n])
    ensures Next(s, act).calls[n].began == s.calls[n].began
  {
    var c := s.calls[n];
    match act {
      case Query(k) =>
        if k == n { QuietQueried(cached, now, id, d, |s.versions| - 1, c); }
      case Resume(k, later) =>
        if k == n { QuietResumed(cached, now, id, d, s.cache, c, later); }
      case Break(k, _) =>
        if k == n { QuietBroke(cached, now, id, d, c); }
      case _ =>
    }
  }

  lemma {:induction false} VersionsGrow(db: Db, acts: seq<Action>, k: nat)
    requires k <= |acts|
    ensures Run(db, acts[..k]).versions <= Run(db, acts).versions
    decreases |acts|
  {
    if k == |acts| {
      assert acts[..k] == acts;
    } else {
      assert acts[..|acts| - 1][..k] == acts[..k];
      VersionsGrow(db, acts[..|acts| - 1], k);
    }
  }

  /** The entry, if any, that load n finds when action k begins it. */
  function CachedAt(db: Db, acts: seq<Action>, k: nat, id: FnId): Option<Entry>
    requires k <= |acts|
  {
    Find(Run(db, acts[..k]).cache, CacheKey(id))
  }

  ghost predicate BeginsAt(db: Db, acts: seq<Action>, k: nat, n: nat, id: FnId, now: int) {
    k < |acts| && acts[k] == Begin(n, id, now) && n !in Run(db, acts[..k]).calls
  }

  /** From `from` on, every version is `d`. */
  predicate Quiet(vs: seq<Db>, from: int, d: Db) {
    forall i :: 0 <= i && from <= i < |vs| ==> vs[i] == d
  }

  lemma QuietPrefix(vs: seq<Db>, ws: seq<Db>, from: int, d: Db)
    requires Quiet(ws, from, d) && vs <= ws && 0 <= from < |vs|
    ensures Quiet(vs, from, d) && vs[|vs| - 1] == d
  {
  }

  lemma {:induction false} QuietRun(db: Db, acts: seq<Action>, k: nat, n: nat, id: FnId, now: int, d: Db)
    requires BeginsAt(db, acts, k, n, id, now) && Sound(acts, n)
    requires Quiet(Run(db, acts).versions, |Run(db, acts[..k]).versions| - 1, d)
    ensures n in Run(db, acts).calls && Run(db, acts).calls[n].began == |Run(db, acts[..k]).versions| - 1
    ensures QuietInv(CachedAt(db, acts, k, id), now, id, d, Run(db, acts).calls[n])
    decreases |acts|
  {
    var init, last := acts[..|acts| - 1], acts[|acts| - 1];
    if k < |acts| - 1 {
      assert init[..k] == acts[..k] && init[k] == acts[k];
      SoundPrefix(acts, n);
      if Breaks(last, n) { UnbrokenIsFresh(db, init, n); }
      VersionsGrow(db, acts, |acts| - 1);
      VersionsGrow(db, init, k);
      QuietPrefix(Run(db, init).versions, Run(db, acts).versions, |Run(db, acts[..k]).versions| - 1, d);
      QuietRun(db, init, k, n, id, now, d);
      assert CachedAt(db, init, k, id) == CachedAt(db, acts, k, id);
      QuietNext(Run(db, init), last, n, CachedAt(db, acts, k, id), now, id, d);
    } else {
      QuietBegins(db, acts, n, id, now, d);
    }
  }

  lemma QuietBegins(db: Db, acts: seq<Action>, n: nat, id: FnId, now: int, d: Db)
    requires acts != [] && BeginsAt(db, acts, |acts| - 1, n, id, now)
    ensures n in Run(db, acts).calls && Run(db, acts).calls[n].began == |Run(db, acts[..|acts| - 1]).versions| - 1
    ensures QuietInv(CachedAt(db, acts, |acts| - 1, id), now, id, d, Run(db, acts).calls[n])
  {
  }

  /** If the database does not change during a load and at most one of its queries fails, on a dead
      connection, the answer is
      that of the plain read exactly when the load reads everything, or the function is gone, or its
      app is provisioned and, unless paused, connected: a verified hit looks at none of the latter. */
  lemma QuietLoadIsPlain(db: Db, acts: seq<Action>, k: nat, n: nat, id: FnId, now: int, d: Db)
    requires BeginsAt(db, acts, k, n, id, now) && Sound(acts, n)
    requires ColonFree(Run(db, acts).versions) && Truthful(Run(db, acts).versions)
    requires Quiet(Run(db, acts).versions, |Run(db, acts[..k]).versions| - 1, d)
    requires n in Run(db, acts).calls && Run(db, acts).calls[n].phase.Finished?
    ensures SameAnswer(Run(db, acts).calls[n].phase.answer, PlainLoad(d, id)) <==>
            ReadsAll(CachedAt(db, acts, k, id), now, d, id) || !Live(d, id) || Configured(d, id.app)
  {
    QuietRun(db, acts, k, n, id, now, d);
    PrefixState(db, acts, k);
    QuietAnswer(Run(db, acts[..k]), Run(db, acts).versions, Run(db, acts).calls[n], id, now, d);
  }

  /** Rounds a load still needs. */
  function RoundsLeft(p: Phase): nat {
    match p
    case Check(_) => 4
    case Checked(_, _, _) => 4
    case Load => 3
    case Loaded(_, _) => 3
    case LoadApp(_, _) => 2
    case GotApp(_, _, _, _) => 2
    case Connect(_, _, _) => 1
    case Connected(_, _, _, _) => 1
    case Finished(_) => 0
  }

  function Rounds(n: nat, k: nat, now: int): seq<Action> {
    if k == 0 then [] else Rounds(n, k - 1, now) + [Query(n)] + [Resume(n, now)]
  }

  /** Whatever the cache and the database hold, a round brings a load closer to its end. */
  lemma RoundProgresses(m: Store, d: Db, at: nat, c: Call, now: int)
    requires AwaitsQuery(c)
    ensures var t := Resumed(m, Queried(d, at, c), now).1;
            RoundsLeft(t.phase) < RoundsLeft(c.phase) && (AwaitsQuery(t) || t.phase.Finished?)
  {
  }

  /** Load n waits for a query with at most `left` rounds to go, or is finished. */
  predicate Nears(s: System, n: nat, left: nat) {
    n in s.calls && (s.calls[n].phase.Finished? || (AwaitsQuery(s.calls[n]) && RoundsLeft(s.calls[n].phase) <= left))
  }

  lemma OneRound(s: System, n: nat, now: int, left: nat)
    requires |s.versions| > 0 && Nears(s, n, left) && left > 0
    ensures Nears(Next(Next(s, Query(n)), Resume(n, now)), n, left - 1)
  {
    var d := s.versions[|s.versions| - 1];
    var t := Next(Next(s, Query(n)), Resume(n, now));
    assert t.calls[n] == Resumed(s.cache, Queried(d, |s.versions| - 1, s.calls[n]), now).1;
    if AwaitsQuery(s.calls[n]) {
      RoundProgresses(s.cache, d, |s.versions| - 1, s.calls[n], now);
    }
  }

  lemma {:induction false} RoundsEnd(db: Db, acts: seq<Action>, n: nat, k: nat, now: int)
    requires Nears(Run(db, acts), n, 4) && k <= 4
    ensures Nears(Run(db, acts + Rounds(n, k, now)), n, 4 - k)
  {
    if k == 0 {
      assert acts + Rounds(n, 0, now) == acts;
    } else {
      RoundsEnd(db, acts, n, k - 1, now);
      var so := acts + Rounds(n, k - 1, now);
      assert acts + Rounds(n, k, now) == so + [Query(n)] + [Resume(n, now)];
      RunSnoc(db, so, Query(n));
      RunSnoc(db, so + [Query(n)], Resume(n, now));
      OneRound(Run(db, so), n, now, 4 - k + 1);
    }
  }

  /** A load whose queries are answered ends after four of them, whatever it was waiting for. */
  lemma LoadEnds(db: Db, acts: seq<Action>, n: nat, now: int)
    requires n in Run(db, acts).calls && AwaitsQuery(Run(db, acts).calls[n])
    ensures var t := Run(db, acts + Rounds(n, 4, now));
            n in t.calls && t.calls[n].phase.Finished?
  {
    RoundsEnd(db, acts, n, 4, now);
  }

  /** What such a load answers where the app is set up: nothing for a deleted function, a pause for a
      paused app, and otherwise the code the database has. */
  lemma QuietAnswers(db: Db, acts: seq<Action>, k: nat, n: nat, id: FnId, now: int, d: Db)
    requires BeginsAt(db, acts, k, n, id, now) && Sound(acts, n)
    requires ColonFree(Run(db, acts).versions) && Truthful(Run(db, acts).versions)
    requires Quiet(Run(db, acts).versions, |Run(db, acts[..k]).versions| - 1, d)
    requires n in Run(db, acts).calls && Run(db, acts).calls[n].phase.Finished?
    ensures var answer := Run(db, acts).calls[n].phase.answer;
            && (!HasFunction(d, id) ==> answer == Missing)
            && (HasFunction(d, id) && IsPaused(d, id.app) && d.apps[id.app].provisioned ==> answer == Paused)
            && (HasFunction(d, id) && !IsPaused(d, id.app) && id.app in d.apps && d.apps[id.app].provisioned && id.app in d.connections ==>
                  answer.Found? && answer.metadata == Metadata(id, d.functions[id].code))
  {
    QuietLoadIsPlain(db, acts, k, n, id, now, d);
  }

  /** What the finished load answers, from the state in which it began. */
  lemma QuietAnswer(s: System, vs: seq<Db>, c: Call, id: FnId, now: int, d: Db)
    requires Inv(s) && s.versions <= vs && ColonFree(vs) && Truthful(vs) && vs[|s.versions| - 1] == d
    requires c.phase.Finished? && QuietInv(Find(s.cache, CacheKey(id)), now, id, d, c)
    ensures SameAnswer(c.phase.answer, PlainLoad(d, id)) <==>
            ReadsAll(Find(s.cache, CacheKey(id)), now, d, id) || !Live(d, id) || Configured(d, id.app)
  {
    var cached := Find(s.cache, CacheKey(id));
    if !ReadsAll(cached, now, d, id) {
      if Passes(d, id, cached.value) {
        TruthfulPrefix(s.versions, vs);
        CachedIsCurrent(s.versions, s.cache, id, cached.value, d);
      }
      CheckedAgainstPlain(d, id, cached.value);
    }
  }

  /** A checked entry that is current answers like the plain read except where it looks at less. */
  lemma CheckedAgainstPlain(d: Db, id: FnId, e: Entry)
    requires Live(d, id) && !PausedApp(d, id.app) ==> e.metadata == Metadata(id, d.functions[id].code)
    ensures SameAnswer(CheckAnswer(d, id, e), PlainLoad(d, id)) <==> !Live(d, id) || Configured(d, id.app)
  {
  }

  lemma PrefixState(db: Db, acts: seq<Action>, k: nat)
    requires k <= |acts|
    ensures Inv(Run(db, acts[..k])) && Run(db, acts[..k]).versions <= Run(db, acts).versions
  {
    RunInv(db, acts[..k]);
    VersionsGrow(db, acts, k);
  }

  /** An entry that is found, and passed by the current version, is the function itself. */
  lemma CachedIsCurrent(vs: seq<Db>, m: Store, id: FnId, e: Entry, d: Db)
    requires |vs| > 0 && CacheInv(vs, m) && ColonFree(vs) && Truthful(vs)
    requires Find(m, CacheKey(id)) == Some(e) && d == vs[|vs| - 1] && Passes(d, id, e)
    ensures e.metadata == Metadata(id, d.functions[id].code)
  {
    FoundIsGenuine(vs, m, id);
    VerifiedHitIsCurrent(vs, |vs| - 1, id, e, |vs| - 1);
  }

  lemma FoundIsGenuine(vs: seq<Db>, m: Store, id: FnId)
    requires CacheInv(vs, m) && Find(m, CacheKey(id)).Some?
    ensures var e := Find(m, CacheKey(id)).value; SameKey(e.metadata.id, id) && Genuine(vs, |vs| - 1, e)
  {
    var e := Find(m, CacheKey(id)).value;
    var i :| 0 <= i < |m| && m[i] == Slot(CacheKey(id), e);
    assert m[i] in m;
  }
}
