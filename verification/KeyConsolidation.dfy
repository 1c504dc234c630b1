/** Giving every function of a cloned app the same API keys: planning, applying, and why a
    second run finds nothing to do (`scripts/backfill-consolidate-clone-keys.ts`). */
module KeyConsolidation {
  import opened Wrappers

  datatype Value = Str(text: string) | Other(json: string)

  type Env = map<string, Value>

  /** `decrypt` then `JSON.parse` to an object, and `JSON.stringify` then `encrypt` under a fresh
      initialisation vector. `None` stands for an exception. */
  datatype Codec = Codec(open: string -> Option<Env>, seal: (Env, int) -> string)

  ghost predicate Lawful(codec: Codec) {
    forall env, iv :: codec.seal(env, iv) != "" && codec.open(codec.seal(env, iv)) == Some(env)
  }

  datatype Row = Row(id: string, blob: Option<string>)
  datatype Change = Change(id: string, keys: seq<string>)
  datatype Plan = Plan(canonical: string, affected: seq<Change>, displaced: seq<string>)

  const KEYS: seq<string> := ["BUTTERBASE_API_KEY", "BB_SUBSTRATE_KEY"]

  // ---------- the values in play ----------

  function Opened(codec: Codec, blob: Option<string>): Option<Env> {
    if blob.Some? && blob.value != "" then codec.open(blob.value) else None
  }

  /** `typeof env[k] === 'string'` */
  predicate Holds(env: Env, k: string, v: string) {
    k in env && env[k] == Str(v)
  }

  predicate HasText(env: Env, k: string) {
    k in env && env[k].Str?
  }

  /** `v` is the value of one of the two keys. */
  predicate Carries(env: Env, v: string) {
    CarriesIn(env, KEYS, v)
  }

  predicate CarriesIn(env: Env, keys: seq<string>, v: string) {
    exists k :: k in keys && Holds(env, k, v)
  }

  lemma CarriesSnoc(env: Env, keys: seq<string>, k: string)
    ensures forall v :: CarriesIn(env, keys + [k], v) <==> CarriesIn(env, keys, v) || Holds(env, k, v)
  {
    forall v | CarriesIn(env, keys, v) ensures CarriesIn(env, keys + [k], v) {
      var j :| j in keys && Holds(env, j, v);
      assert j in keys + [k];
    }
    assert k in keys + [k];
  }

  predicate InUse(envs: seq<Option<Env>>, v: string) {
    exists i :: 0 <= i < |envs| && envs[i].Some? && Carries(envs[i].value, v)
  }

  function OpenAll(codec: Codec, rows: seq<Row>): (envs: seq<Option<Env>>)
    ensures |envs| == |rows| && forall i :: 0 <= i < |rows| ==> envs[i] == Opened(codec, rows[i].blob)
  {
    if rows == [] then [] else OpenAll(codec, rows[..|rows| - 1]) + [Opened(codec, rows[|rows| - 1].blob)]
  }

  // ---------- the alphabetical order of strings ----------

  predicate AtMost(a: string, b: string) {
    a == "" || (b != "" && (a[0] < b[0] || (a[0] == b[0] && AtMost(a[1..], b[1..]))))
  }

  lemma {:induction false} OrderIsTotal(a: string, b: string)
    ensures AtMost(a, b) || AtMost(b, a)
    ensures AtMost(a, b) && AtMost(b, a) ==> a == b
  {
    if a != "" && b != "" {
      OrderIsTotal(a[1..], b[1..]);
      assert a == [a[0]] + a[1..] && b == [b[0]] + b[1..];
    }
  }

  /** Alphabetical: a beginning comes first, otherwise the first difference decides. */
  lemma {:induction false} AtMostIff(a: string, b: string)
    ensures AtMost(a, b) <==> a <= b || exists i :: 0 <= i < |a| && i < |b| && a[..i] == b[..i] && a[i] < b[i]
  {
    if a != "" && b != "" {
      AtMostIff(a[1..], b[1..]);
      if a[0] == b[0] && AtMost(a[1..], b[1..]) && !(a[1..] <= b[1..]) {
        var i :| 0 <= i < |a[1..]| && i < |b[1..]| && a[1..][..i] == b[1..][..i] && a[1..][i] < b[1..][i];
        assert a[..i + 1] == [a[0]] + a[1..][..i] && b[..i + 1] == [b[0]] + b[1..][..i];
        assert a[i + 1] < b[i + 1];
      }
      if a[0] < b[0] {
        assert a[..0] == b[..0];
      }
      if i :| 0 < i < |a| && i < |b| && a[..i] == b[..i] && a[i] < b[i] {
        assert a[0] == a[..i][0] == b[..i][0] == b[0];
        assert a[1..][..i - 1] == a[..i][1..] == b[..i][1..] == b[1..][..i - 1];
        assert a[1..][i - 1] < b[1..][i - 1];
      }
    }
  }

  lemma {:induction false} OrderIsTransitive(a: string, b: string, c: string)
    requires AtMost(a, b) && AtMost(b, c)
    ensures AtMost(a, c)
  {
    if a != "" && a[0] == b[0] == c[0] {
      OrderIsTransitive(a[1..], b[1..], c[1..]);
    }
  }

  /** `[...values].sort()[0]` */
  function PickCanonical(values: seq<string>): (least: string)
    requires values != []
    ensures least in values && forall v :: v in values ==> AtMost(least, v)
  {
    var last := values[|values| - 1];
    OrderIsTotal(last, last);
    if |values| == 1 then last
    else
      var rest := PickCanonical(values[..|values| - 1]);
      OrderIsTotal(rest, last);
      LeastWith(values, rest, last);
      if AtMost(rest, last) then rest else last
  }

  lemma LeastWith(values: seq<string>, rest: string, last: string)
    requires values != [] && values[|values| - 1] == last
    requires forall v :: v in values[..|values| - 1] ==> AtMost(rest, v)
    ensures forall v :: v in values ==> v in values[..|values| - 1] || v == last
    ensures AtMost(rest, last) || AtMost(last, rest)
    ensures AtMost(last, rest) ==> forall v :: v in values ==> AtMost(last, v)
  {
    OrderIsTotal(rest, last);
    OrderIsTotal(last, last);
    assert values == values[..|values| - 1] + [last];
    if AtMost(last, rest) {
      forall v | v in values[..|values| - 1] ensures AtMost(last, v) {
        OrderIsTransitive(last, rest, v);
      }
    }
  }

  // ---------- planning ----------

  /** A set that remembers insertion order. */
  function Added(values: seq<string>, v: string): seq<string> {
    if v in values then values else values + [v]
  }

  predicate NoRepeats(values: seq<string>) {
    forall i, j :: 0 <= i < j < |values| ==> values[i] != values[j]
  }

  method AddValues(env: Env, values: seq<string>) returns (r: seq<string>)
    requires NoRepeats(values)
    ensures NoRepeats(r)
    ensures forall v :: v in r <==> v in values || Carries(env, v)
  {
    r := values;
    for i := 0 to |KEYS|
      invariant NoRepeats(r)
      invariant forall v :: v in r <==> v in values || CarriesIn(env, KEYS[..i], v)
    {
      assert KEYS[..i + 1] == KEYS[..i] + [KEYS[i]];
      CarriesSnoc(env, KEYS[..i], KEYS[i]);
      if HasText(env, KEYS[i]) {
        r := Added(r, env[KEYS[i]].text);
      }
    }
    assert KEYS[..|KEYS|] == KEYS;
  }

  method DistinctValues(envs: seq<Option<Env>>) returns (r: seq<string>)
    ensures NoRepeats(r)
    ensures forall v :: v in r <==> InUse(envs, v)
  {
    r := [];
    for i := 0 to |envs|
      invariant NoRepeats(r)
      invariant forall v :: v in r <==> InUse(envs[..i], v)
    {
      InUseSnoc(envs, i);
      if envs[i].Some? {
        r := AddValues(envs[i].value, r);
      }
    }
    assert envs[..|envs|] == envs;
  }

  lemma InUseSnoc(envs: seq<Option<Env>>, i: nat)
    requires i < |envs|
    ensures forall v :: InUse(envs[..i + 1], v) <==>
                        InUse(envs[..i], v) || (envs[i].Some? && Carries(envs[i].value, v))
  {
    assert envs[..i + 1] == envs[..i] + [envs[i]];
    forall v | InUse(envs[..i], v) ensures InUse(envs[..i + 1], v) {
      var j :| 0 <= j < i && envs[..i][j].Some? && Carries(envs[..i][j].value, v);
      assert envs[..i + 1][j] == envs[..i][j];
    }
    forall v | envs[i].Some? && Carries(envs[i].value, v) ensures InUse(envs[..i + 1], v) {
      assert envs[..i + 1][i] == envs[i];
    }
  }

  /** The keys of `env` whose text is not the canonical value. */
  function Differing(env: Env, canonical: string, keys: seq<string>): (r: seq<string>)
    ensures forall k :: k in r <==> k in keys && HasText(env, k) && env[k].text != canonical
  {
    if keys == [] then []
    else
      var n := |keys| - 1;
      assert keys == keys[..n] + [keys[n]];
      Differing(env, canonical, keys[..n]) + if HasText(env, keys[n]) && env[keys[n]].text != canonical then [keys[n]] else []
  }

  function Rewrites(env: Env, canonical: string): seq<string> {
    Differing(env, canonical, KEYS)
  }

  function AffectedBy(rows: seq<Row>, envs: seq<Option<Env>>, canonical: string): seq<Change>
    requires |rows| == |envs|
  {
    if rows == [] then []
    else
      var n := |rows| - 1;
      AffectedBy(rows[..n], envs[..n], canonical) +
      if envs[n].Some? && Rewrites(envs[n].value, canonical) != [] then [Change(rows[n].id, Rewrites(envs[n].value, canonical))]
      else []
  }

  /** Nothing to consolidate: at most one value is in use. */
  ghost predicate Settled(envs: seq<Option<Env>>) {
    forall v, w :: InUse(envs, v) && InUse(envs, w) ==> v == w
  }

  ghost predicate IsCanonical(envs: seq<Option<Env>>, c: string) {
    InUse(envs, c) && forall v :: InUse(envs, v) ==> AtMost(c, v)
  }

  method KeysToWrite(env: Env, canonical: string, displaced: seq<string>) returns (keys: seq<string>, out: seq<string>)
    requires NoRepeats(displaced)
    ensures keys == Rewrites(env, canonical) && NoRepeats(out)
    ensures forall v :: v in out <==> v in displaced || (v != canonical && Carries(env, v))
  {
    keys, out := [], displaced;
    for i := 0 to |KEYS|
      invariant keys == Differing(env, canonical, KEYS[..i]) && NoRepeats(out)
      invariant forall v :: v in out <==> v in displaced || (v != canonical && CarriesIn(env, KEYS[..i], v))
    {
      assert KEYS[..i + 1] == KEYS[..i] + [KEYS[i]];
      assert KEYS[..i + 1][..i] == KEYS[..i];
      CarriesSnoc(env, KEYS[..i], KEYS[i]);
      if HasText(env, KEYS[i]) && env[KEYS[i]].text != canonical {
        keys := keys + [KEYS[i]];
        out := Added(out, env[KEYS[i]].text);
      }
    }
    assert KEYS[..|KEYS|] == KEYS;
  }

  method FindAffected(rows: seq<Row>, envs: seq<Option<Env>>, canonical: string)
    returns (affected: seq<Change>, displaced: seq<string>)
    requires |rows| == |envs|
    ensures affected == AffectedBy(rows, envs, canonical) && NoRepeats(displaced)
    ensures forall v :: v in displaced <==> v != canonical && InUse(envs, v)
  {
    affected, displaced := [], [];
    for i := 0 to |envs|
      invariant affected == AffectedBy(rows[..i], envs[..i], canonical) && NoRepeats(displaced)
      invariant forall v :: v in displaced <==> v != canonical && InUse(envs[..i], v)
    {
      InUseSnoc(envs, i);
      assert rows[..i + 1][..i] == rows[..i] && envs[..i + 1][..i] == envs[..i];
      if envs[i].Some? {
        var keys;
        keys, displaced := KeysToWrite(envs[i].value, canonical, displaced);
        if |keys| > 0 {
          affected := affected + [Change(rows[i].id, keys)];
        }
      }
    }
    assert rows[..|envs|] == rows && envs[..|envs|] == envs;
  }

  lemma {:induction false} DisplacedMeansAffected(rows: seq<Row>, envs: seq<Option<Env>>, canonical: string, v: string)
    requires |rows| == |envs| && InUse(envs, v) && v != canonical
    ensures AffectedBy(rows, envs, canonical) != []
  {
    var n := |rows| - 1;
    InUseSnoc(envs, n);
    assert envs[..n + 1] == envs;
    if InUse(envs[..n], v) {
      DisplacedMeansAffected(rows[..n], envs[..n], canonical, v);
    } else {
      var k :| k in KEYS && Holds(envs[n].value, k, v);
      assert k in Rewrites(envs[n].value, canonical);
    }
  }

  /** A plan exists exactly when two values are in use; the exit for an empty list of affected
      functions is never taken beyond that. */
  method PlanForApp(codec: Codec, rows: seq<Row>) returns (plan: Option<Plan>)
    ensures plan.None? <==> Settled(OpenAll(codec, rows))
    ensures plan.Some? ==>
              && IsCanonical(OpenAll(codec, rows), plan.value.canonical)
              && plan.value.affected == AffectedBy(rows, OpenAll(codec, rows), plan.value.canonical)
              && plan.value.affected != []
              && NoRepeats(plan.value.displaced)
              && forall v :: v in plan.value.displaced <==> v != plan.value.canonical && InUse(OpenAll(codec, rows), v)
  {
    var envs: seq<Option<Env>> := [];
    for i := 0 to |rows|
      invariant envs == OpenAll(codec, rows[..i])
    {
      assert rows[..i + 1][..i] == rows[..i];
      envs := envs + [Opened(codec, rows[i].blob)];
    }
    assert rows[..|rows|] == rows;
    var distinct := DistinctValues(envs);
    if |distinct| <= 1 {
      return None;
    }
    assert distinct[0] != distinct[1] && InUse(envs, distinct[0]) && InUse(envs, distinct[1]);
    var canonical := PickCanonical(distinct);
    var affected, displaced := FindAffected(rows, envs, canonical);
    var other := if distinct[0] == canonical then distinct[1] else distinct[0];
    DisplacedMeansAffected(rows, envs, canonical, other);
    if |affected| == 0 {
      return None;
    }
    plan := Some(Plan(canonical, affected, displaced));
  }

  // ---------- applying ----------

  /** The encrypted variables of every function in the region. */
  type Blobs = map<string, Option<string>>

  function WithKeys(env: Env, keys: seq<string>, v: string): (r: Env)
    ensures forall k :: k in r <==> k in env || k in keys
    ensures forall k :: k in r ==> r[k] == if k in keys then Str(v) else env[k]
  {
    if keys == [] then env else WithKeys(env, keys[..|keys| - 1], v)[keys[|keys| - 1] := Str(v)]
  }

  /** One change against the current row; a vanished row is skipped and `None` is an exception. */
  function Rewritten(codec: Codec, blobs: Blobs, change: Change, v: string, iv: int): Option<Blobs> {
    if change.id !in blobs || blobs[change.id].None? || blobs[change.id].value == "" then Some(blobs)
    else
      var env := codec.open(blobs[change.id].value);
      if env.None? then None
      else Some(blobs[change.id := Some(codec.seal(WithKeys(env.value, change.keys, v), iv))])
  }

  datatype Outcome = Outcome(blobs: Blobs, ok: bool)

  function Applied(codec: Codec, blobs: Blobs, changes: seq<Change>, v: string, ivs: nat -> int): Outcome {
    if changes == [] then Outcome(blobs, true)
    else
      var n := |changes| - 1;
      var before := Applied(codec, blobs, changes[..n], v, ivs);
      if !before.ok then before
      else
        var after := Rewritten(codec, before.blobs, changes[n], v, ivs(n));
        if after.None? then Outcome(before.blobs, false) else Outcome(after.value, true)
  }

  class Table {
    var blobs: Blobs

    constructor (blobs: Blobs)
      ensures this.blobs == blobs
    {
      this.blobs := blobs;
    }

    method ApplyPlan(codec: Codec, plan: Plan, ivs: nat -> int) returns (ok: bool)
      modifies this
      ensures Outcome(blobs, ok) == Applied(codec, old(blobs), plan.affected, plan.canonical, ivs)
    {
      ghost var start := blobs;
      for i := 0 to |plan.affected|
        invariant Outcome(blobs, true) == Applied(codec, start, plan.affected[..i], plan.canonical, ivs)
      {
        var change := plan.affected[i];
        assert plan.affected[..i + 1][..i] == plan.affected[..i];
        StepFails(codec, start, plan.affected, plan.canonical, ivs, i);
        if change.id in blobs && blobs[change.id].Some? && blobs[change.id].value != "" {
          var stored := codec.open(blobs[change.id].value);
          if stored.None? {
            return false;
          }
          var env := stored.value;
          for j := 0 to |change.keys|
            invariant env == WithKeys(stored.value, change.keys[..j], plan.canonical)
          {
            assert change.keys[..j + 1][..j] == change.keys[..j];
            env := env[change.keys[j] := Str(plan.canonical)];
          }
          assert change.keys[..|change.keys|] == change.keys;
          blobs := blobs[change.id := Some(codec.seal(env, ivs(i)))];
        }
      }
      assert plan.affected[..|plan.affected|] == plan.affected;
      ok := true;
    }
  }

  /** An exception at change `i` decides the outcome of the whole list. */
  lemma {:induction false} StepFails(codec: Codec, blobs: Blobs, changes: seq<Change>, v: string, ivs: nat -> int, i: nat)
    requires i < |changes|
    ensures !Applied(codec, blobs, changes[..i + 1], v, ivs).ok ==>
              Applied(codec, blobs, changes, v, ivs) == Applied(codec, blobs, changes[..i + 1], v, ivs)
    decreases |changes|
  {
    var n := |changes| - 1;
    if i < n {
      assert changes[..n][..i + 1] == changes[..i + 1];
      StepFails(codec, blobs, changes[..n], v, ivs, i);
    } else {
      assert changes[..i + 1] == changes;
    }
  }

  // ---------- what applying does to a row ----------

  /** One change, by what the row is: a vanished or empty one is left alone, an unreadable one is an
      exception, and any other is written back. */
  lemma RewrittenMeans(codec: Codec, blobs: Blobs, change: Change, v: string, iv: int)
    ensures var r := Rewritten(codec, blobs, change, v, iv);
            && (change.id !in blobs || blobs[change.id] == None || blobs[change.id] == Some("") ==> r == Some(blobs))
            && (change.id in blobs && blobs[change.id].Some? && blobs[change.id].value != "" ==>
                  && (r.None? <==> codec.open(blobs[change.id].value).None?)
                  && (r.Some? ==> exists env :: r.value == blobs[change.id := Some(codec.seal(env, iv))]))
  {
  }

  lemma RewrittenRow(codec: Codec, blobs: Blobs, change: Change, v: string, iv: int)
    requires Lawful(codec) && change.id in blobs
    requires Rewritten(codec, blobs, change, v, iv).Some? && Rewritten(codec, blobs, change, v, iv).value != blobs
    ensures Opened(codec, blobs[change.id]).Some?
    ensures Opened(codec, Rewritten(codec, blobs, change, v, iv).value[change.id]) ==
            Some(WithKeys(Opened(codec, blobs[change.id]).value, change.keys, v))
  {
    var env := WithKeys(codec.open(blobs[change.id].value).value, change.keys, v);
    assert codec.seal(env, iv) != "" && codec.open(codec.seal(env, iv)) == Some(env);
  }

  lemma ReadableRow(codec: Codec, blobs: Blobs, change: Change, v: string, iv: int)
    requires Lawful(codec) && change.id in blobs && Opened(codec, blobs[change.id]).Some?
    ensures var r := Rewritten(codec, blobs, change, v, iv);
            && r.Some? && r.value.Keys == blobs.Keys
            && Opened(codec, r.value[change.id]) == Some(WithKeys(Opened(codec, blobs[change.id]).value, change.keys, v))
            && forall id :: id in blobs && id != change.id ==> r.value[id] == blobs[id]
  {
    var env := WithKeys(codec.open(blobs[change.id].value).value, change.keys, v);
    assert codec.seal(env, iv) != "" && codec.open(codec.seal(env, iv)) == Some(env);
  }

  function ChangesOf(changes: seq<Change>, id: string): seq<Change> {
    if changes == [] then []
    else
      var n := |changes| - 1;
      ChangesOf(changes[..n], id) + if changes[n].id == id then [changes[n]] else []
  }

  /** Against any table, however it was edited since planning: rows the plan does not name, and
      variables it does not name, keep their values, and no row appears or disappears. */
  lemma {:induction false} OthersUntouched(codec: Codec, blobs: Blobs, changes: seq<Change>, v: string, ivs: nat -> int, id: string)
    requires Lawful(codec)
    ensures var after := Applied(codec, blobs, changes, v, ivs).blobs;
            && after.Keys == blobs.Keys
            && (id in blobs && (forall c :: c in changes ==> c.id != id) ==> after[id] == blobs[id])
            && (id in blobs ==> Kept(Opened(codec, blobs[id]), Opened(codec, after[id]), changes, v))
  {
    if changes != [] {
      var n := |changes| - 1;
      OthersUntouched(codec, blobs, changes[..n], v, ivs, id);
      if id in blobs {
        OneStepKeeps(codec, blobs, changes, v, ivs, id);
      }
    }
  }

  /** Every variable keeps its value, except that one a change names may have become `v`. */
  ghost predicate Kept(before: Option<Env>, after: Option<Env>, changes: seq<Change>, v: string) {
    && before.Some? == after.Some?
    && (before.Some? ==> forall k :: SameAt(before.value, after.value, k) || (Named(changes, k) && Holds(after.value, k, v)))
  }

  predicate SameAt(a: Env, b: Env, k: string) {
    (k in a <==> k in b) && (k in a ==> a[k] == b[k])
  }

  predicate Named(changes: seq<Change>, k: string) {
    exists c :: c in changes && k in c.keys
  }

  lemma OneStepKeeps(codec: Codec, blobs: Blobs, changes: seq<Change>, v: string, ivs: nat -> int, id: string)
    requires Lawful(codec) && changes != [] && id in blobs
    requires var before := Applied(codec, blobs, changes[..|changes| - 1], v, ivs).blobs;
             id in before && Kept(Opened(codec, blobs[id]), Opened(codec, before[id]), changes[..|changes| - 1], v)
    ensures var after := Applied(codec, blobs, changes, v, ivs).blobs;
            id in after && Kept(Opened(codec, blobs[id]), Opened(codec, after[id]), changes, v)
  {
    var n := |changes| - 1;
    var before := Applied(codec, blobs, changes[..n], v, ivs).blobs;
    var after := Applied(codec, blobs, changes, v, ivs).blobs;
    assert changes == changes[..n] + [changes[n]];
    if after != before && id == changes[n].id {
      RewrittenRow(codec, before, changes[n], v, ivs(n));
    }
    KeptOneMore(Opened(codec, blobs[id]), Opened(codec, before[id]), Opened(codec, after[id]), changes[..n], changes[n], v);
  }

  lemma KeptOneMore(before: Option<Env>, mid: Option<Env>, after: Option<Env>, changes: seq<Change>, c: Change, v: string)
    requires Kept(before, mid, changes, v)
    requires after == mid || (mid.Some? && after == Some(WithKeys(mid.value, c.keys, v)))
    ensures Kept(before, after, changes + [c], v)
  {
    assert c in changes + [c];
    forall k | k in c.keys ensures Named(changes + [c], k) {
      assert c in changes + [c] && k in c.keys;
    }
    forall k | Named(changes, k) ensures Named(changes + [c], k) {
      var d :| d in changes && k in d.keys;
      assert d in changes + [c];
    }
    if before.Some? {
      forall k ensures SameAt(before.value, after.value, k) || (Named(changes + [c], k) && Holds(after.value, k, v)) {
        assert SameAt(before.value, mid.value, k) || (Named(changes, k) && Holds(mid.value, k, v));
      }
    }
  }

  // ---------- the quiet run ----------

  /** The rows read for planning are still the rows of the table, one per function. */
  predicate Snapshot(rows: seq<Row>, blobs: Blobs) {
    && (forall i :: 0 <= i < |rows| ==> rows[i].id in blobs && blobs[rows[i].id] == rows[i].blob)
    && forall i, j :: 0 <= i < j < |rows| ==> rows[i].id != rows[j].id
  }

  function Consolidated(env: Env, v: string): Env {
    map k | k in env :: if k in KEYS && env[k].Str? then Str(v) else env[k]
  }

  lemma RewritesConsolidate(env: Env, v: string)
    ensures WithKeys(env, Rewrites(env, v), v) == Consolidated(env, v)
    ensures Rewrites(env, v) == [] ==> Consolidated(env, v) == env
  {
    ConsolidatedAt(env, v);
    RewrittenAt(env, v);
    SameMap(WithKeys(env, Rewrites(env, v), v), Consolidated(env, v));
  }

  lemma RewrittenAt(env: Env, v: string)
    ensures var r := WithKeys(env, Rewrites(env, v), v);
            r.Keys == env.Keys && forall k :: k in env ==> r[k] == if k in Rewrites(env, v) then Str(v) else env[k]
  {
  }

  lemma SameMap(a: Env, b: Env)
    requires a.Keys == b.Keys && forall k :: k in a ==> a[k] == b[k]
    ensures a == b
  {
  }

  lemma ConsolidatedAt(env: Env, v: string)
    ensures Consolidated(env, v).Keys == env.Keys
    ensures forall k :: k in env ==> Consolidated(env, v)[k] == if k in Rewrites(env, v) then Str(v) else env[k]
  {
  }

  /** What the row of a function holds once the plan has been applied to it. */
  ghost predicate RowDone(codec: Codec, row: Row, after: Option<string>, v: string) {
    if Opened(codec, row.blob).None? then after == row.blob
    else Opened(codec, after) == Some(Consolidated(Opened(codec, row.blob).value, v))
  }

  /** Every row read is done, every other row is as it was, and there was no exception. */
  ghost predicate Clean(codec: Codec, rows: seq<Row>, blobs: Blobs, r: Outcome, v: string) {
    && r.ok && r.blobs.Keys == blobs.Keys
    && (forall i :: 0 <= i < |rows| && rows[i].id in blobs ==> RowDone(codec, rows[i], r.blobs[rows[i].id], v))
    && (forall id :: id in blobs && (forall i :: 0 <= i < |rows| ==> rows[i].id != id) ==> r.blobs[id] == blobs[id])
  }

  /** Applying the plan of a quiet table succeeds and consolidates every readable function. */
  lemma {:induction false} AppliesCleanly(codec: Codec, rows: seq<Row>, blobs: Blobs, v: string, ivs: nat -> int)
    requires Lawful(codec) && Snapshot(rows, blobs)
    ensures Clean(codec, rows, blobs, Applied(codec, blobs, AffectedBy(rows, OpenAll(codec, rows), v), v, ivs), v)
  {
    if rows != [] {
      var n := |rows| - 1;
      var earlier := AffectedBy(rows[..n], OpenAll(codec, rows[..n]), v);
      assert rows == rows[..n] + [rows[n]];
      AppliesCleanly(codec, rows[..n], blobs, v, ivs);
      var before := Applied(codec, blobs, earlier, v, ivs);
      assert before.blobs[rows[n].id] == rows[n].blob;
      AffectedSnoc(codec, rows[..n], rows[n], v);
      var env := Opened(codec, rows[n].blob);
      if env.Some? {
        RewritesConsolidate(env.value, v);
      }
      if env.Some? && Rewrites(env.value, v) != [] {
        var change := Change(rows[n].id, Rewrites(env.value, v));
        AppliedSnoc(codec, blobs, earlier, change, v, ivs);
        ReadableRow(codec, before.blobs, change, v, ivs(|earlier|));
        CleanOneMore(codec, rows[..n], rows[n], blobs, before, Rewritten(codec, before.blobs, change, v, ivs(|earlier|)).value, v);
      } else {
        CleanOneMore(codec, rows[..n], rows[n], blobs, before, before.blobs, v);
      }
    }
  }

  lemma AffectedSnoc(codec: Codec, rows: seq<Row>, row: Row, v: string)
    ensures AffectedBy(rows + [row], OpenAll(codec, rows + [row]), v) ==
            var env := Opened(codec, row.blob);
            if env.Some? && Rewrites(env.value, v) != []
              then AffectedBy(rows, OpenAll(codec, rows), v) + [Change(row.id, Rewrites(env.value, v))]
              else AffectedBy(rows, OpenAll(codec, rows), v)
  {
    assert (rows + [row])[..|rows|] == rows;
    assert OpenAll(codec, rows + [row])[..|rows|] == OpenAll(codec, rows);
  }

  lemma AppliedSnoc(codec: Codec, blobs: Blobs, changes: seq<Change>, c: Change, v: string, ivs: nat -> int)
    requires Applied(codec, blobs, changes, v, ivs).ok
    ensures var before := Applied(codec, blobs, changes, v, ivs).blobs;
            var after := Rewritten(codec, before, c, v, ivs(|changes|));
            Applied(codec, blobs, changes + [c], v, ivs) == if after.None? then Outcome(before, false) else Outcome(after.value, true)
  {
    assert (changes + [c])[..|changes|] == changes;
  }

  lemma CleanOneMore(codec: Codec, rows: seq<Row>, row: Row, blobs: Blobs, before: Outcome, after: Blobs, v: string)
    requires Clean(codec, rows, blobs, before, v) && row.id in blobs
    requires forall i :: 0 <= i < |rows| ==> rows[i].id != row.id
    requires after.Keys == blobs.Keys && RowDone(codec, row, after[row.id], v)
    requires forall id :: id in blobs && id != row.id ==> after[id] == before.blobs[id]
    ensures Clean(codec, rows + [row], blobs, Outcome(after, true), v)
  {
    var all := rows + [row];
    forall i | 0 <= i < |all| && all[i].id in blobs ensures RowDone(codec, all[i], after[all[i].id], v) {
      assert i < |rows| ==> all[i] == rows[i];
    }
    forall id | id in blobs && forall i :: 0 <= i < |all| ==> all[i].id != id ensures after[id] == blobs[id] {
      assert all[|rows|] == row;
      assert forall i :: 0 <= i < |rows| ==> rows[i].id == all[i].id;
    }
  }

  /** The rows a second planning run would read. */
  function Reread(rows: seq<Row>, blobs: Blobs): (r: seq<Row>)
    requires forall i :: 0 <= i < |rows| ==> rows[i].id in blobs
    ensures |r| == |rows| && forall i :: 0 <= i < |rows| ==> r[i] == Row(rows[i].id, blobs[rows[i].id])
  {
    if rows == [] then [] else Reread(rows[..|rows| - 1], blobs) + [Row(rows[|rows| - 1].id, blobs[rows[|rows| - 1].id])]
  }

  lemma ConsolidatedValues(env: Env, c: string)
    ensures forall v :: Carries(Consolidated(env, c), v) ==> v == c
    ensures forall k :: k in KEYS && HasText(env, k) ==> Holds(Consolidated(env, c), k, c)
    ensures forall k :: k !in KEYS || !HasText(env, k) ==> SameAt(env, Consolidated(env, c), k)
  {
  }

  /** Planning and applying on a quiet table is a fixpoint: every key a readable function had is
      now one value that some function already had, every other variable, every unreadable
      function and every row outside the app is as before, and a second plan finds nothing. */
  lemma {:induction false} Fixpoint(codec: Codec, rows: seq<Row>, blobs: Blobs, c: string, ivs: nat -> int)
    requires Lawful(codec) && Snapshot(rows, blobs) && IsCanonical(OpenAll(codec, rows), c)
    ensures var r := Applied(codec, blobs, AffectedBy(rows, OpenAll(codec, rows), c), c, ivs);
            && r.ok && r.blobs.Keys == blobs.Keys
            && (forall i :: 0 <= i < |rows| ==> RowMeans(codec, rows[i].blob, r.blobs[rows[i].id], c))
            && (forall id :: id in blobs && (forall i :: 0 <= i < |rows| ==> rows[i].id != id) ==> r.blobs[id] == blobs[id])
            && Settled(OpenAll(codec, Reread(rows, r.blobs)))
  {
    AppliesCleanly(codec, rows, blobs, c, ivs);
    var r := Applied(codec, blobs, AffectedBy(rows, OpenAll(codec, rows), c), c, ivs);
    forall i | 0 <= i < |rows|
      ensures RowMeans(codec, rows[i].blob, r.blobs[rows[i].id], c)
    {
      DoneMeans(codec, rows[i], r.blobs[rows[i].id], c);
    }
    OneValueLeft(codec, Reread(rows, r.blobs), c);
  }

  predicate IsKey(k: string) {
    k == "BUTTERBASE_API_KEY" || k == "BB_SUBSTRATE_KEY"
  }

  lemma KeysAre(k: string)
    ensures k in KEYS <==> IsKey(k)
  {
  }

  ghost predicate RowMeans(codec: Codec, before: Option<string>, after: Option<string>, c: string) {
    var was, now := Opened(codec, before), Opened(codec, after);
    if was.None? then after == before
    else
      && now.Some?
      && (forall k :: IsKey(k) && HasText(was.value, k) ==> Holds(now.value, k, c))
      && (forall k :: !IsKey(k) || !HasText(was.value, k) ==> SameAt(was.value, now.value, k))
  }

  lemma DoneMeans(codec: Codec, row: Row, after: Option<string>, c: string)
    requires RowDone(codec, row, after, c)
    ensures RowMeans(codec, row.blob, after, c)
    ensures Opened(codec, after).Some? ==> forall v :: Carries(Opened(codec, after).value, v) ==> v == c
  {
    if Opened(codec, row.blob).Some? {
      ConsolidatedValues(Opened(codec, row.blob).value, c);
      forall k ensures k in KEYS <==> IsKey(k) {
        KeysAre(k);
      }
    }
  }

  lemma OneValueLeft(codec: Codec, rows: seq<Row>, c: string)
    requires forall i :: 0 <= i < |rows| && Opened(codec, rows[i].blob).Some? ==>
               forall v :: Carries(Opened(codec, rows[i].blob).value, v) ==> v == c
    ensures Settled(OpenAll(codec, rows))
  {
    var envs := OpenAll(codec, rows);
    forall v | InUse(envs, v) ensures v == c {
      var i :| 0 <= i < |envs| && envs[i].Some? && Carries(envs[i].value, v);
      assert envs[i] == Opened(codec, rows[i].blob);
    }
  }

  /** The whole run: plan, apply on the same table, plan again. */
  method ConsolidateTwice(codec: Codec, rows: seq<Row>, table: Table, ivs: nat -> int) returns (first: Option<Plan>, second: Option<Plan>)
    requires Lawful(codec) && Snapshot(rows, table.blobs)
    modifies table
    ensures second.None?
    ensures first.None? <==> Settled(OpenAll(codec, rows))
    ensures first.None? ==> table.blobs == old(table.blobs)
  {
    first := PlanForApp(codec, rows);
    if first.None? {
      return None, None;
    }
    Fixpoint(codec, rows, table.blobs, first.value.canonical, ivs);
    var ok := table.ApplyPlan(codec, first.value, ivs);
    second := PlanForApp(codec, Reread(rows, table.blobs));
  }
}
