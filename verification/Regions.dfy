/** Region configuration, derived three times from the same environment: by the shared loader, by
    the function runtime and by the control API's bootstrap. */
module Regions {
  import opened Wrappers
  import Text

  /** The variables involved; None is unset. */
  datatype Env = Env(regions: Option<string>, region: Option<string>, fly: Option<string>, flyMap: Option<string>)

  datatype ConfigError =
    | RegionsUnset | RegionsEmpty | NoUsableValues | InvalidRegion(item: string) | DuplicateRegion(item: string)
    | RegionEmpty | RegionUnknown(region: string) | NothingToDeriveFrom
    | MapEmpty | MalformedEntry(entry: string) | EmptyKeyOrValue(entry: string) | DuplicateKey(key: string)
    | NoEntry(fly: string)

  datatype Config = Config(regions: seq<string>, instanceRegion: string)

  // ---------- lists of trimmed pieces ----------

  function TrimAll(parts: seq<string>): seq<string> {
    seq(|parts|, i requires 0 <= i < |parts| => Text.Trim(parts[i]))
  }

  function Pieces(s: string, sep: char): (r: seq<string>)
    ensures |r| >= 1
  {
    TrimAll(Text.Split(s, sep))
  }

  function NonEmpty(parts: seq<string>): seq<string> {
    if parts == [] then []
    else
      var init, last := NonEmpty(parts[..|parts| - 1]), parts[|parts| - 1];
      if last == "" then init else init + [last]
  }

  lemma {:induction false} TrimStartPrefix(a: string, s: string)
    requires Text.AllSpace(a)
    ensures Text.TrimStart(a + s) == Text.TrimStart(s)
  {
    if a == "" {
      assert a + s == s;
    } else {
      assert a[0] in a;
      assert (a + s)[1..] == a[1..] + s;
      TrimStartPrefix(a[1..], s);
    }
  }

  /** White space around a text never changes what its trimmed form is. */
  lemma TrimOuter(a: string, s: string, b: string)
    requires Text.AllSpace(a) && Text.AllSpace(b)
    ensures Text.Trim(a + s + b) == Text.Trim(s)
  {
    var x, y := Text.TrimSplits(s);
    var t := Text.Trim(s);
    assert a + s + b == (a + x) + t + (y + b);
    Text.TrimAround(a + x, t, y + b);
  }

  lemma {:induction false} SplitPrefix(a: string, s: string, sep: char)
    requires sep !in a
    ensures var r := Text.Split(s, sep); Text.Split(a + s, sep) == [a + r[0]] + r[1..]
  {
    var r := Text.Split(s, sep);
    if a == "" {
      assert a + s == s;
      assert "" + r[0] == r[0] && r == [r[0]] + r[1..];
    } else {
      assert (a + s)[1..] == a[1..] + s;
      SplitPrefix(a[1..], s, sep);
      assert [a[0]] + (a[1..] + r[0]) == a + r[0];
    }
  }

  /** Trimming the whole first does not change the trimmed pieces. */
  lemma PiecesOfTrimmed(s: string, sep: char)
    requires !Text.IsSpace(sep)
    ensures Pieces(Text.Trim(s), sep) == Pieces(s, sep)
  {
    var a, b := Text.TrimSplits(s);
    var t := Text.Trim(s);
    assert sep !in a && sep !in b;
    var r := Text.Split(t, sep);
    Text.SplitSuffix(t, b, sep);
    var u := Text.Split(t + b, sep);
    SplitPrefix(a, t + b, sep);
    assert s == a + (t + b);
    SamePieces(a, r, b);
    assert u == r[..|r| - 1] + [r[|r| - 1] + b];
  }

  lemma SamePieces(a: string, r: seq<string>, b: string)
    requires |r| >= 1 && Text.AllSpace(a) && Text.AllSpace(b)
    ensures var u := r[..|r| - 1] + [r[|r| - 1] + b];
            TrimAll([a + u[0]] + u[1..]) == TrimAll(r)
  {
    var u := r[..|r| - 1] + [r[|r| - 1] + b];
    var v := [a + u[0]] + u[1..];
    forall i | 0 <= i < |r|
      ensures Text.Trim(v[i]) == Text.Trim(r[i])
    {
      var front := if i == 0 then a else "";
      var back := if i == |r| - 1 then b else "";
      assert v[i] == front + r[i] + back;
      TrimOuter(front, r[i], back);
    }
  }

  // ---------- region names ----------

  predicate IsLower(c: char) { 'a' <= c <= 'z' }
  predicate IsLowerOrDigit(c: char) { IsLower(c) || '0' <= c <= '9' }

  /** `[a-z]+(-[a-z0-9]+)+`, hyphen-separated parts the first of which is all letters. */
  predicate IsRegionName(s: string) {
    var parts := Text.Split(s, '-');
    && |parts| >= 2
    && (forall p :: p in parts ==> p != "" && forall c :: c in p ==> IsLowerOrDigit(c))
    && forall c :: c in parts[0] ==> IsLower(c)
  }

  predicate IsNameChar(c: char) { c == '-' || IsLowerOrDigit(c) }

  lemma {:induction false} JoinChars(parts: seq<string>)
    requires forall p :: p in parts ==> forall c :: c in p ==> IsNameChar(c)
    ensures forall c :: c in Text.Join(parts, '-') ==> IsNameChar(c)
  {
    if |parts| > 1 {
      assert forall p :: p in parts[1..] ==> p in parts;
      JoinChars(parts[1..]);
      assert parts[0] in parts;
    } else if |parts| == 1 {
      assert parts[0] in parts;
    }
  }

  lemma RegionNameChars(s: string)
    requires IsRegionName(s)
    ensures s != "" && forall c :: c in s ==> IsNameChar(c)
  {
    Text.JoinSplit(s, '-');
    JoinChars(Text.Split(s, '-'));
  }

  predicate AllIn(s: string, digits: bool) {
    s != "" && forall c :: c in s ==> 'a' <= c <= 'z' || (digits && '0' <= c <= '9')
  }

  /** The names of the pattern: letters, then one part or more of letters and digits after hyphens. */
  lemma RegionNameIff(s: string)
    ensures IsRegionName(s) <==>
            exists parts :: |parts| >= 2 && s == Text.Join(parts, '-') && AllIn(parts[0], false) && forall p :: p in parts ==> AllIn(p, true)
  {
    if IsRegionName(s) {
      var parts := Text.Split(s, '-');
      Text.JoinSplit(s, '-');
      assert parts[0] in parts;
      assert AllIn(parts[0], false) && forall p :: p in parts ==> AllIn(p, true);
    }
    if parts :| |parts| >= 2 && s == Text.Join(parts, '-') && AllIn(parts[0], false) && forall p :: p in parts ==> AllIn(p, true) {
      forall p | p in parts ensures '-' !in p {
        assert AllIn(p, true);
      }
      Text.SplitJoin(parts, '-');
      assert AllIn(parts[0], false);
    }
  }

  function UpperChar(c: char): char {
    if c == '-' then '_' else if IsLower(c) then (c as int - 32) as char else c
  }

  /** The suffix of a region's environment variables, on names made of lower-case letters,
      digits and hyphens. */
  function EnvSuffix(region: string): string {
    seq(|region|, i requires 0 <= i < |region| => UpperChar(region[i]))
  }

  /** Letters in capitals, hyphens as underscores, digits as they are. */
  lemma EnvSuffixSpells(region: string, i: nat)
    requires i < |region|
    ensures |EnvSuffix(region)| == |region|
    ensures region[i] == '-' ==> EnvSuffix(region)[i] == '_'
    ensures '0' <= region[i] <= '9' ==> EnvSuffix(region)[i] == region[i]
    ensures 'a' <= region[i] <= 'z' ==>
              'A' <= EnvSuffix(region)[i] <= 'Z' && EnvSuffix(region)[i] as int - 'A' as int == region[i] as int - 'a' as int
  {
  }

  /** Two valid region names never share an environment variable. */
  lemma EnvSuffixInjective(a: string, b: string)
    requires IsRegionName(a) && IsRegionName(b) && EnvSuffix(a) == EnvSuffix(b)
    ensures a == b
  {
    RegionNameChars(a);
    RegionNameChars(b);
    forall i | 0 <= i < |a|
      ensures i < |b| && a[i] == b[i]
    {
      assert |EnvSuffix(a)| == |EnvSuffix(b)|;
      assert EnvSuffix(a)[i] == EnvSuffix(b)[i];
      assert a[i] in a && b[i] in b;
    }
    assert |EnvSuffix(a)| == |EnvSuffix(b)|;
  }

  // ---------- the shared loader ----------

  predicate Distinct(items: seq<string>) {
    forall i, j :: 0 <= i < j < |items| ==> items[i] != items[j]
  }

  method ParseRegions(raw: string) returns (r: Result<seq<string>, ConfigError>)
    ensures r == RegionsIn(raw)
    ensures r.Ok? ==> r.value != [] && Distinct(r.value) && forall x :: x in r.value ==> IsRegionName(x)
  {
    if Text.Trim(raw) == "" {
      return Err(RegionsEmpty);
    }
    var items := NonEmpty(Pieces(Text.Trim(raw), ','));
    if items == [] {
      return Err(NoUsableValues);
    }
    for i := 0 to |items|
      invariant FirstInvalid(items) == FirstInvalid(items[i..])
    {
      assert items[i..][1..] == items[i + 1..];
      if !IsRegionName(items[i]) {
        return Err(InvalidRegion(items[i]));
      }
    }
    var seen: set<string> := {};
    for i := 0 to |items|
      invariant FirstRepeat(items, {}) == FirstRepeat(items[i..], seen)
    {
      assert items[i..][1..] == items[i + 1..];
      if items[i] in seen {
        return Err(DuplicateRegion(items[i]));
      }
      seen := seen + {items[i]};
    }
    FirstInvalidIff(items);
    FirstRepeatIff(items, {});
    r := Ok(items);
  }

  function FirstInvalid(items: seq<string>): Option<string> {
    if items == [] then None else if !IsRegionName(items[0]) then Some(items[0]) else FirstInvalid(items[1..])
  }

  function FirstRepeat(items: seq<string>, seen: set<string>): Option<string>
    decreases |items|
  {
    if items == [] then None
    else if items[0] in seen then Some(items[0])
    else FirstRepeat(items[1..], seen + {items[0]})
  }

  function RegionsIn(raw: string): Result<seq<string>, ConfigError> {
    if Text.Trim(raw) == "" then Err(RegionsEmpty)
    else
      var items := NonEmpty(Pieces(Text.Trim(raw), ','));
      if items == [] then Err(NoUsableValues)
      else
        match FirstInvalid(items)
        case Some(item) => Err(InvalidRegion(item))
        case None =>
          match FirstRepeat(items, {})
          case Some(item) => Err(DuplicateRegion(item))
          case None => Ok(items)
  }

  /** One entry `<fly>:<region>`, split at its first colon. */
  function ParseEntry(entry: string): Result<(string, string), ConfigError> {
    var parts := Text.Split(entry, ':');
    var idx := |parts[0]|;
    if |parts| == 1 || idx == 0 || idx >= |entry| - 1 then Err(MalformedEntry(entry))
    else
      var key, value := Text.Trim(entry[..idx]), Text.Trim(entry[idx + 1..]);
      if key == "" || value == "" then Err(EmptyKeyOrValue(entry)) else Ok((key, value))
  }

  function EntriesIn(entries: seq<string>): Result<map<string, string>, ConfigError> {
    if entries == [] then Ok(map[])
    else
      match EntriesIn(entries[..|entries| - 1])
      case Err(e) => Err(e)
      case Ok(m) =>
        match ParseEntry(entries[|entries| - 1])
        case Err(e) => Err(e)
        case Ok(kv) => if kv.0 in m then Err(DuplicateKey(kv.0)) else Ok(m[kv.0 := kv.1])
  }

  function FlyMapIn(raw: string): Result<map<string, string>, ConfigError> {
    if Text.Trim(raw) == "" then Err(MapEmpty) else EntriesIn(NonEmpty(Pieces(Text.Trim(raw), ',')))
  }

  method ParseFlyRegionMap(raw: string) returns (r: Result<map<string, string>, ConfigError>)
    ensures r == FlyMapIn(raw)
  {
    if Text.Trim(raw) == "" {
      return Err(MapEmpty);
    }
    var entries := NonEmpty(Pieces(Text.Trim(raw), ','));
    var m: map<string, string> := map[];
    for i := 0 to |entries|
      invariant EntriesIn(entries[..i]) == Ok(m)
    {
      assert entries[..i + 1][..i] == entries[..i];
      var kv := ParseEntry(entries[i]);
      if kv.Err? {
        FirstErrorWins(entries, i + 1);
        return Err(kv.error);
      }
      if kv.value.0 in m {
        FirstErrorWins(entries, i + 1);
        return Err(DuplicateKey(kv.value.0));
      }
      m := m[kv.value.0 := kv.value.1];
    }
    assert entries[..|entries|] == entries;
    r := Ok(m);
  }

  lemma {:induction false} FirstErrorWins(entries: seq<string>, n: nat)
    requires n <= |entries| && EntriesIn(entries[..n]).Err?
    ensures EntriesIn(entries) == EntriesIn(entries[..n])
    decreases |entries|
  {
    if n == |entries| {
      assert entries[..n] == entries;
    } else {
      assert entries[..|entries| - 1][..n] == entries[..n];
      FirstErrorWins(entries[..|entries| - 1], n);
    }
  }

  // ---------- what the parsers accept ----------

  lemma {:induction false} FirstInvalidIff(items: seq<string>)
    ensures FirstInvalid(items).None? <==> forall x :: x in items ==> IsRegionName(x)
  {
    if items != [] {
      FirstInvalidIff(items[1..]);
      assert items == [items[0]] + items[1..];
    }
  }

  lemma {:induction false} FirstRepeatIff(items: seq<string>, seen: set<string>)
    ensures FirstRepeat(items, seen).None? <==> Distinct(items) && forall x :: x in items ==> x !in seen
    decreases |items|
  {
    if items != [] {
      FirstRepeatIff(items[1..], seen + {items[0]});
      RepeatSplit(items, seen);
    }
  }

  lemma RepeatSplit(items: seq<string>, seen: set<string>)
    requires items != []
    ensures Distinct(items) && (forall x :: x in items ==> x !in seen) <==>
            items[0] !in seen && Distinct(items[1..]) && forall x :: x in items[1..] ==> x !in seen + {items[0]}
  {
    var rest := items[1..];
    assert items == [items[0]] + rest;
    DistinctCons(items[0], rest);
    assert items[0] in items;
  }

  lemma DistinctCons(x: string, rest: seq<string>)
    ensures Distinct([x] + rest) <==> Distinct(rest) && x !in rest
  {
    var all := [x] + rest;
    assert forall i :: 0 <= i < |rest| ==> rest[i] == all[i + 1];
    if x in rest {
      var i :| 0 <= i < |rest| && rest[i] == x;
      assert all[0] == all[i + 1];
    }
    if Distinct(all) {
      forall i, j | 0 <= i < j < |rest| ensures rest[i] != rest[j] {
        assert all[i + 1] != all[j + 1];
      }
    }
  }

  /** The region list is accepted exactly when its trimmed, non-empty pieces are at least one,
      valid and distinct, and then those pieces are the answer. */
  lemma RegionsAcceptedIff(raw: string)
    ensures var names := NonEmpty(Pieces(raw, ','));
            if names != [] && (forall x :: x in names ==> IsRegionName(x)) && Distinct(names)
              then RegionsIn(raw) == Ok(names)
              else RegionsIn(raw).Err?
  {
    PiecesOfTrimmed(raw, ',');
    var names := NonEmpty(Pieces(raw, ','));
    FirstInvalidIff(names);
    FirstRepeatIff(names, {});
    if Text.Trim(raw) == "" {
      assert Text.Split("", ',') == [""];
      assert Pieces("", ',') == [""];
    }
  }

  /** `<key>:<value>` is read back, whatever colons the value has. */
  lemma EntryRoundTrip(key: string, value: string)
    requires Text.Trimmed(key) && key != "" && ':' !in key && Text.Trimmed(value) && value != ""
    ensures ParseEntry(key + ":" + value) == Ok((key, value))
  {
    Text.SplitHead(key, value, ':');
    var entry := key + ":" + value;
    assert Text.Split(entry, ':')[0] == key;
    assert entry[..|key|] == key && entry[|key| + 1..] == value;
    Text.TrimmedId(key);
    Text.TrimmedId(value);
  }

  /** An entry is well formed exactly when its first colon stands between a key and a value that are
      not blank. */
  lemma EntryOkIff(entry: string)
    ensures ParseEntry(entry).Ok? <==>
            exists key, value :: entry == key + ":" + value && ':' !in key && Text.Trim(key) != "" && Text.Trim(value) != ""
    ensures forall key, value :: entry == key + ":" + value && ':' !in key && Text.Trim(key) != "" && Text.Trim(value) != "" ==>
              ParseEntry(entry) == Ok((Text.Trim(key), Text.Trim(value)))
  {
    var parts := Text.Split(entry, ':');
    Text.JoinSplit(entry, ':');
    Text.SplitPieces(entry, ':');
    assert parts[0] in parts;
    if ParseEntry(entry).Ok? {
      var rest := Text.Join(parts[1..], ':');
      assert entry == parts[0] + ":" + rest;
      assert entry[..|parts[0]|] == parts[0] && entry[|parts[0]| + 1..] == rest;
    }
    forall key, value | entry == key + ":" + value && ':' !in key && Text.Trim(key) != "" && Text.Trim(value) != ""
      ensures ParseEntry(entry) == Ok((Text.Trim(key), Text.Trim(value)))
    {
      Text.SplitHead(key, value, ':');
      assert parts == [key] + Text.Split(value, ':');
      assert entry[..|key|] == key && entry[|key| + 1..] == value;
    }
  }

  predicate KeysDiffer(entries: seq<string>) {
    forall i, j :: 0 <= i < j < |entries| && ParseEntry(entries[i]).Ok? && ParseEntry(entries[j]).Ok? ==>
      ParseEntry(entries[i]).value.0 != ParseEntry(entries[j]).value.0
  }

  ghost predicate Holds(entries: seq<string>, m: map<string, string>) {
    && (forall i :: 0 <= i < |entries| && ParseEntry(entries[i]).Ok? ==>
          ParseEntry(entries[i]).value.0 in m && m[ParseEntry(entries[i]).value.0] == ParseEntry(entries[i]).value.1)
    && (forall k :: k in m ==> exists i :: 0 <= i < |entries| && ParseEntry(entries[i]) == Ok((k, m[k])))
  }

  /** The map is accepted exactly when every entry is well formed and no key is repeated, and it
      then holds the pairs of the entries and nothing else. */
  lemma {:induction false} EntriesAcceptedIff(entries: seq<string>)
    ensures EntriesIn(entries).Ok? <==> (forall i :: 0 <= i < |entries| ==> ParseEntry(entries[i]).Ok?) && KeysDiffer(entries)
    ensures EntriesIn(entries).Ok? ==> Holds(entries, EntriesIn(entries).value)
  {
    if entries != [] {
      var init, last := entries[..|entries| - 1], entries[|entries| - 1];
      EntriesAcceptedIff(init);
      assert entries == init + [last];
      if EntriesIn(init).Ok? && ParseEntry(last).Ok? {
        OneMoreEntry(init, last, EntriesIn(init).value);
      } else {
        assert forall i :: 0 <= i < |init| ==> entries[i] == init[i];
      }
    }
  }

  lemma OneMoreEntry(init: seq<string>, last: string, m: map<string, string>)
    requires (forall i :: 0 <= i < |init| ==> ParseEntry(init[i]).Ok?) && KeysDiffer(init) && Holds(init, m) && ParseEntry(last).Ok?
    ensures var kv := ParseEntry(last).value;
            && (KeysDiffer(init + [last]) <==> kv.0 !in m)
            && (kv.0 !in m ==> Holds(init + [last], m[kv.0 := kv.1]))
  {
    var kv, all := ParseEntry(last).value, init + [last];
    if kv.0 in m {
      var i :| 0 <= i < |init| && ParseEntry(init[i]) == Ok((kv.0, m[kv.0]));
      assert all[i] == init[i] && all[|init|] == last;
    } else {
      HoldsOneMore(init, last, m);
    }
  }

  lemma HoldsOneMore(init: seq<string>, last: string, m: map<string, string>)
    requires Holds(init, m) && ParseEntry(last).Ok? && ParseEntry(last).value.0 !in m
    ensures var kv := ParseEntry(last).value; Holds(init + [last], m[kv.0 := kv.1])
  {
    var kv, all := ParseEntry(last).value, init + [last];
    var n := m[kv.0 := kv.1];
    forall k | k in n ensures exists i :: 0 <= i < |all| && ParseEntry(all[i]) == Ok((k, n[k])) {
      if k == kv.0 {
        assert ParseEntry(all[|init|]) == Ok((k, n[k]));
      } else {
        var i :| 0 <= i < |init| && ParseEntry(init[i]) == Ok((k, m[k]));
        assert ParseEntry(all[i]) == Ok((k, n[k]));
      }
    }
  }

  function InstanceRegion(raw: string, allowed: seq<string>): Result<string, ConfigError> {
    var t := Text.Trim(raw);
    if t == "" then Err(RegionEmpty) else if t !in allowed then Err(RegionUnknown(t)) else Ok(t)
  }

  predicate Truthy(v: Option<string>) {
    v.Some? && v.value != ""
  }

  function Derived(env: Env, regions: seq<string>): Result<string, ConfigError> {
    if env.region.Some? then
      if Text.Trim(env.region.value) == "" then Err(RegionEmpty) else InstanceRegion(Text.Trim(env.region.value), regions)
    else if !Truthy(env.fly) || !Truthy(env.flyMap) then Err(NothingToDeriveFrom)
    else
      match FlyMapIn(env.flyMap.value)
      case Err(e) => Err(e)
      case Ok(m) =>
        if env.fly.value !in m || m[env.fly.value] == "" then Err(NoEntry(env.fly.value))
        else InstanceRegion(m[env.fly.value], regions)
  }

  function LoadRegionConfig(env: Env): Result<Config, ConfigError> {
    if env.regions.None? then Err(RegionsUnset)
    else
      match RegionsIn(env.regions.value)
      case Err(e) => Err(e)
      case Ok(regions) =>
        match Derived(env, regions)
        case Err(e) => Err(e)
        case Ok(instance) => Ok(Config(regions, instance))
  }

  // ---------- the runtime and the control API ----------

  /** A pair with the wanted key and a value: the runtime takes the first such pair. */
  function PairValue(pair: string, fly: string): Option<string> {
    var kv := Pieces(pair, ':');
    if |kv| > 1 && kv[0] == fly && kv[1] != "" then Some(kv[1]) else None
  }

  function FirstPair(pairs: seq<string>, fly: string): Option<string> {
    if pairs == [] then None
    else
      match PairValue(pairs[0], fly)
      case Some(v) => Some(v)
      case None => FirstPair(pairs[1..], fly)
  }

  method ResolveInstanceRegion(env: Env) returns (r: Option<string>)
    ensures r == RuntimeRegion(env)
  {
    if Truthy(env.region) {
      return env.region;
    }
    if Truthy(env.fly) && Truthy(env.flyMap) {
      var pairs := Text.Split(env.flyMap.value, ',');
      for i := 0 to |pairs|
        invariant FirstPair(pairs, env.fly.value) == FirstPair(pairs[i..], env.fly.value)
      {
        assert pairs[i..][1..] == pairs[i + 1..];
        var kv := Pieces(pairs[i], ':');
        if |kv| > 1 && kv[0] == env.fly.value && kv[1] != "" {
          return Some(kv[1]);
        }
      }
    }
    r := None;
  }

  function RuntimeRegion(env: Env): Option<string> {
    if Truthy(env.region) then env.region
    else if Truthy(env.fly) && Truthy(env.flyMap) then FirstPair(Text.Split(env.flyMap.value, ','), env.fly.value)
    else None
  }

  /** `Object.fromEntries` keeps the last pair of a key, whose value may be missing. */
  function LastPair(pairs: seq<string>, fly: string): Option<string> {
    if pairs == [] then None
    else
      var kv := Pieces(pairs[|pairs| - 1], ':');
      if kv[0] == fly then (if |kv| > 1 then Some(kv[1]) else None)
      else LastPair(pairs[..|pairs| - 1], fly)
  }

  /** The value of the region variable after the control API's bootstrap. */
  function ControlRegion(env: Env): Option<string> {
    if Truthy(env.region) || !Truthy(env.fly) || !Truthy(env.flyMap) then env.region
    else
      var mapped := LastPair(Text.Split(env.flyMap.value, ','), env.fly.value);
      if Truthy(mapped) then mapped else env.region
  }

  /** An empty region variable counts as unset for the runtime and the bootstrap, and is an error for
      the loader. */
  lemma EmptyIsUnset(env: Env, regions: seq<string>)
    ensures RuntimeRegion(env.(region := Some(""))) == RuntimeRegion(env.(region := None))
    ensures Truthy(ControlRegion(env.(region := Some("")))) <==> ControlRegion(env.(region := None)).Some?
    ensures ControlRegion(env.(region := None)).Some? ==> ControlRegion(env.(region := Some(""))) == ControlRegion(env.(region := None))
    ensures Derived(env.(region := Some("")), regions) == Err(RegionEmpty)
  {
  }

  // ---------- agreement ----------

  /** The key a pair is filed under by all three derivations. */
  function KeyOf(pair: string): string {
    Pieces(pair, ':')[0]
  }

  lemma EntryParts(entry: string)
    requires ParseEntry(entry).Ok?
    ensures var kv := ParseEntry(entry).value;
            && KeyOf(entry) == kv.0 && kv.0 != "" && kv.1 != ""
            && (':' !in kv.1 ==> |Pieces(entry, ':')| == 2 && Pieces(entry, ':')[1] == kv.1)
  {
    var parts := Text.Split(entry, ':');
    Text.JoinSplit(entry, ':');
    var rest := Text.Join(parts[1..], ':');
    assert entry == parts[0] + [':'] + rest;
    var idx := |parts[0]|;
    assert entry[..idx] == parts[0] && entry[idx + 1..] == rest;
    var a, b := Text.TrimSplits(rest);
    if ':' !in Text.Trim(rest) {
      assert ':' !in a && ':' !in b;
      assert ':' !in rest;
      OneMorePart(parts);
    }
  }

  lemma OneMorePart(parts: seq<string>)
    requires |parts| >= 2 && ':' !in Text.Join(parts[1..], ':')
    ensures |parts| == 2 && Text.Join(parts[1..], ':') == parts[1]
  {
    if |parts| > 2 {
      assert false;
    }
  }

  lemma KeyOfTrimmed(pair: string)
    ensures Pieces(Text.Trim(pair), ':') == Pieces(pair, ':')
    ensures Text.Trim(pair) == "" ==> KeyOf(pair) == ""
  {
    PiecesOfTrimmed(pair, ':');
  }

  lemma {:induction false} FirstPairSnoc(pairs: seq<string>, p: string, fly: string)
    ensures FirstPair(pairs + [p], fly) ==
            if FirstPair(pairs, fly).Some? then FirstPair(pairs, fly) else PairValue(p, fly)
  {
    if pairs == [] {
      assert pairs + [p] == [p] && [p][1..] == [];
    } else {
      assert (pairs + [p])[1..] == pairs[1..] + [p];
      FirstPairSnoc(pairs[1..], p, fly);
    }
  }

  lemma LastPairSnoc(pairs: seq<string>, p: string, fly: string)
    ensures LastPair(pairs + [p], fly) ==
            if KeyOf(p) == fly then (if |Pieces(p, ':')| > 1 then Some(Pieces(p, ':')[1]) else None) else LastPair(pairs, fly)
  {
    assert (pairs + [p])[..|pairs|] == pairs;
  }

  /** A pair the loader skips, or files under another key, is invisible to both scans. */
  lemma OtherPair(pairs: seq<string>, pair: string, fly: string)
    requires fly != ""
    requires Text.Trim(pair) != "" ==> ParseEntry(Text.Trim(pair)).Ok? && ParseEntry(Text.Trim(pair)).value.0 != fly
    ensures FirstPair(pairs + [pair], fly) == FirstPair(pairs, fly)
    ensures LastPair(pairs + [pair], fly) == LastPair(pairs, fly)
  {
    KeyOfTrimmed(pair);
    if Text.Trim(pair) != "" {
      EntryParts(Text.Trim(pair));
    }
    FirstPairSnoc(pairs, pair, fly);
    LastPairSnoc(pairs, pair, fly);
  }

  /** The pair the loader files under the wanted key ends both scans, unless its value has a colon. */
  lemma WantedPair(pairs: seq<string>, pair: string, fly: string)
    requires fly != "" && Text.Trim(pair) != "" && ParseEntry(Text.Trim(pair)).Ok?
    requires ParseEntry(Text.Trim(pair)).value.0 == fly && ':' !in ParseEntry(Text.Trim(pair)).value.1
    requires FirstPair(pairs, fly).None?
    ensures FirstPair(pairs + [pair], fly) == Some(ParseEntry(Text.Trim(pair)).value.1)
    ensures LastPair(pairs + [pair], fly) == Some(ParseEntry(Text.Trim(pair)).value.1)
  {
    KeyOfTrimmed(pair);
    EntryParts(Text.Trim(pair));
    FirstPairSnoc(pairs, pair, fly);
    LastPairSnoc(pairs, pair, fly);
  }

  lemma LastEntry(init: seq<string>, last: string)
    ensures NonEmpty(TrimAll(init + [last])) ==
            if Text.Trim(last) == "" then NonEmpty(TrimAll(init)) else NonEmpty(TrimAll(init)) + [Text.Trim(last)]
  {
    assert TrimAll(init + [last]) == TrimAll(init) + [Text.Trim(last)];
    NonEmptySnoc(TrimAll(init), Text.Trim(last));
  }

  lemma NonEmptySnoc(xs: seq<string>, x: string)
    ensures NonEmpty(xs + [x]) == if x == "" then NonEmpty(xs) else NonEmpty(xs) + [x]
  {
    assert (xs + [x])[..|xs|] == xs;
  }

  lemma EntriesSnoc(entries: seq<string>, e: string, m: map<string, string>)
    requires EntriesIn(entries + [e]) == Ok(m)
    ensures EntriesIn(entries).Ok? && ParseEntry(e).Ok?
    ensures var before, kv := EntriesIn(entries).value, ParseEntry(e).value;
            kv.0 !in before && m == before[kv.0 := kv.1]
  {
    assert (entries + [e])[..|entries|] == entries;
  }

  /** Both scans return the loader's value for a key, unless it contains a colon, and nothing
      for a key the loader does not have. */
  predicate Agreed(pairs: seq<string>, m: map<string, string>, fly: string) {
    && (fly !in m ==> FirstPair(pairs, fly).None? && LastPair(pairs, fly).None?)
    && (fly in m && ':' !in m[fly] ==> FirstPair(pairs, fly) == Some(m[fly]) && LastPair(pairs, fly) == Some(m[fly]))
  }

  lemma AgreedEntry(pairs: seq<string>, pair: string, before: map<string, string>, fly: string)
    requires fly != "" && Agreed(pairs, before, fly)
    requires Text.Trim(pair) != "" && ParseEntry(Text.Trim(pair)).Ok? && ParseEntry(Text.Trim(pair)).value.0 !in before
    ensures var kv := ParseEntry(Text.Trim(pair)).value; Agreed(pairs + [pair], before[kv.0 := kv.1], fly)
  {
    var kv := ParseEntry(Text.Trim(pair)).value;
    if kv.0 != fly {
      OtherPair(pairs, pair, fly);
    } else if ':' !in kv.1 {
      WantedPair(pairs, pair, fly);
    }
  }

  lemma {:induction false} ScansAgree(pairs: seq<string>, m: map<string, string>, fly: string)
    requires EntriesIn(NonEmpty(TrimAll(pairs))) == Ok(m) && fly != ""
    ensures Agreed(pairs, m, fly)
  {
    if pairs != [] {
      var init, last := pairs[..|pairs| - 1], pairs[|pairs| - 1];
      assert pairs == init + [last];
      LastEntry(init, last);
      if Text.Trim(last) == "" {
        ScansAgree(init, m, fly);
        OtherPair(init, last, fly);
      } else {
        var entries := NonEmpty(TrimAll(init));
        EntriesSnoc(entries, Text.Trim(last), m);
        ScansAgree(init, EntriesIn(entries).value, fly);
        AgreedSnoc(init, last, entries, m, fly);
      }
    }
  }

  lemma AgreedSnoc(init: seq<string>, last: string, entries: seq<string>, m: map<string, string>, fly: string)
    requires EntriesIn(entries + [Text.Trim(last)]) == Ok(m) && fly != "" && Text.Trim(last) != ""
    requires EntriesIn(entries).Ok? && Agreed(init, EntriesIn(entries).value, fly)
    ensures Agreed(init + [last], m, fly)
  {
    EntriesSnoc(entries, Text.Trim(last), m);
    AgreedEntry(init, last, EntriesIn(entries).value, fly);
  }

  lemma {:induction false} EntryValues(entries: seq<string>, m: map<string, string>)
    requires EntriesIn(entries) == Ok(m)
    ensures forall k :: k in m ==> Text.Trimmed(m[k]) && m[k] != ""
  {
    if entries != [] {
      EntryValues(entries[..|entries| - 1], EntriesIn(entries[..|entries| - 1]).value);
      EntryValueTrimmed(entries[|entries| - 1]);
    }
  }

  lemma EntryValueTrimmed(e: string)
    requires ParseEntry(e).Ok?
    ensures Text.Trimmed(ParseEntry(e).value.1) && ParseEntry(e).value.1 != ""
  {
    var parts := Text.Split(e, ':');
    var x, y := Text.TrimSplits(e[|parts[0]| + 1..]);
  }

  lemma RegionsAreNames(raw: string)
    requires RegionsIn(raw).Ok?
    ensures forall x :: x in RegionsIn(raw).value ==> IsRegionName(x)
  {
    FirstInvalidIff(NonEmpty(Pieces(Text.Trim(raw), ',')));
  }

  lemma InstanceIsListed(env: Env, regions: seq<string>)
    requires Derived(env, regions).Ok?
    ensures Derived(env, regions).value in regions
  {
  }

  lemma ExplicitRegion(env: Env, regions: seq<string>)
    requires env.region.Some? && Derived(env, regions).Ok?
    ensures env.region.value != "" && Text.Trim(env.region.value) == Derived(env, regions).value
  {
    var a, b := Text.TrimSplits(env.region.value);
    Text.TrimmedId(Text.Trim(env.region.value));
  }

  /** On every environment the shared loader accepts, the runtime and the control API arrive at
      the same region; only an explicit value may keep its surrounding white space. */
  lemma DerivationsAgree(env: Env)
    requires LoadRegionConfig(env).Ok?
    ensures var region := LoadRegionConfig(env).value.instanceRegion;
            && IsRegionName(region)
            && RuntimeRegion(env) == ControlRegion(env)
            && RuntimeRegion(env).Some? && Text.Trim(RuntimeRegion(env).value) == region
            && (env.region.None? ==> RuntimeRegion(env).value == region)
  {
    var regions := RegionsIn(env.regions.value).value;
    RegionsAreNames(env.regions.value);
    var region := LoadRegionConfig(env).value.instanceRegion;
    InstanceIsListed(env, regions);
    RegionNameTrimmed(region);
    if env.region.Some? {
      ExplicitRegion(env, regions);
    } else {
      DerivedFromMap(env, regions, region);
    }
  }

  lemma RegionNameTrimmed(region: string)
    requires IsRegionName(region)
    ensures ':' !in region && Text.Trim(region) == region
  {
    RegionNameChars(region);
    assert region[0] in region && region[|region| - 1] in region;
    assert forall c :: IsNameChar(c) ==> !Text.IsSpace(c) && c != ':';
    Text.TrimmedId(region);
  }

  lemma DerivedFromMap(env: Env, regions: seq<string>, region: string)
    requires env.region.None? && Derived(env, regions) == Ok(region) && ':' !in region
    ensures RuntimeRegion(env) == Some(region) && ControlRegion(env) == Some(region)
  {
    var raw, fly := env.flyMap.value, env.fly.value;
    var m := FlyMapIn(raw).value;
    PiecesOfTrimmed(raw, ',');
    ScansAgree(Text.Split(raw, ','), m, fly);
    EntryValues(NonEmpty(Pieces(raw, ',')), m);
    Text.TrimmedId(m[fly]);
  }

  // ---------- from a region back to a Fly region ----------

  /** `butterbaseRegionToFlyRegion`: the first key that maps to the region, `order` being the
      order in which the object lists its keys. */
  method FlyRegionFor(region: string, m: map<string, string>, order: seq<string>) returns (r: Option<string>)
    requires forall k :: k in order <==> k in m
    ensures r.Some? ==> r.value in m && m[r.value] == region
    ensures r.Some? ==> exists i :: 0 <= i < |order| && order[i] == r.value && forall j :: 0 <= j < i ==> m[order[j]] != region
    ensures r.None? <==> region !in m.Values
  {
    for i := 0 to |order|
      invariant forall j :: 0 <= j < i ==> m[order[j]] != region
    {
      if m[order[i]] == region {
        return Some(order[i]);
      }
    }
    r := None;
  }

  lemma {:induction false} EntryKeys(entries: seq<string>, m: map<string, string>)
    requires EntriesIn(entries) == Ok(m)
    ensures "" !in m
  {
    if entries != [] {
      EntryKeys(entries[..|entries| - 1], EntriesIn(entries[..|entries| - 1]).value);
    }
  }

  lemma MappedRegion(raw: string, fly: string)
    requires FlyMapIn(raw).Ok? && fly in FlyMapIn(raw).value
    ensures raw != "" && fly != "" && FlyMapIn(raw).value[fly] != "" && Text.Trim(FlyMapIn(raw).value[fly]) == FlyMapIn(raw).value[fly]
  {
    var m, entries := FlyMapIn(raw).value, NonEmpty(Pieces(Text.Trim(raw), ','));
    EntryKeys(entries, m);
    EntryValues(entries, m);
    Text.TrimmedId(m[fly]);
  }

  lemma LoadsThere(env: Env, region: string)
    requires env.regions.Some? && RegionsIn(env.regions.value).Ok? && region in RegionsIn(env.regions.value).value
    requires env.region.None? && env.fly.Some? && env.flyMap.Some? && FlyMapIn(env.flyMap.value).Ok?
    requires env.fly.value in FlyMapIn(env.flyMap.value).value && FlyMapIn(env.flyMap.value).value[env.fly.value] == region
    ensures LoadRegionConfig(env) == Ok(Config(RegionsIn(env.regions.value).value, region))
  {
    MappedRegion(env.flyMap.value, env.fly.value);
  }

  /** A machine started in a Fly region that maps to `region` takes itself to be in `region`, by
      all three derivations. */
  lemma FlyRegionLeadsBack(env: Env, region: string)
    requires env.regions.Some? && RegionsIn(env.regions.value).Ok? && region in RegionsIn(env.regions.value).value
    requires env.region.None? && env.fly.Some? && env.flyMap.Some? && FlyMapIn(env.flyMap.value).Ok?
    requires env.fly.value in FlyMapIn(env.flyMap.value).value && FlyMapIn(env.flyMap.value).value[env.fly.value] == region
    ensures LoadRegionConfig(env) == Ok(Config(RegionsIn(env.regions.value).value, region))
    ensures RuntimeRegion(env) == ControlRegion(env) == Some(region)
  {
    LoadsThere(env, region);
    DerivationsAgree(env);
  }

  // ---------- database variables ----------

  /** The database variable of a region is set; `vars` leaves out the common first part of the names. */
  predicate HasUrl(region: string, vars: map<string, string>) {
    EnvSuffix(region) in vars && vars[EnvSuffix(region)] != ""
  }

  /** `resolveRuntimeUrls`: one connection string per region, or the first region without one. */
  method ResolveRuntimeUrls(regions: seq<string>, vars: map<string, string>) returns (r: Result<map<string, string>, string>)
    ensures r.Err? ==> exists i :: 0 <= i < |regions| && regions[i] == r.error && !HasUrl(regions[i], vars)
                                && forall j :: 0 <= j < i ==> HasUrl(regions[j], vars)
    ensures r.Ok? ==> r.value.Keys == set x | x in regions
    ensures r.Err? ==> EnvSuffix(r.error) !in vars || vars[EnvSuffix(r.error)] == ""
    ensures r.Ok? ==> forall x :: x in regions ==> EnvSuffix(x) in vars && r.value[x] == vars[EnvSuffix(x)] && r.value[x] != ""
  {
    var m: map<string, string> := map[];
    for i := 0 to |regions|
      invariant m.Keys == set x | x in regions[..i]
      invariant forall x :: x in regions[..i] ==> HasUrl(x, vars) && m[x] == vars[EnvSuffix(x)]
    {
      assert regions[..i + 1] == regions[..i] + [regions[i]];
      if !HasUrl(regions[i], vars) {
        assert forall j :: 0 <= j < i ==> regions[j] in regions[..i];
        return Err(regions[i]);
      }
      m := m[regions[i] := vars[EnvSuffix(regions[i])]];
    }
    assert regions[..|regions|] == regions;
    r := Ok(m);
  }

  /** Two regions of an accepted configuration never read the same database variable. */
  lemma ConfiguredVariablesDiffer(env: Env, i: nat, j: nat)
    requires LoadRegionConfig(env).Ok?
    requires i < j < |LoadRegionConfig(env).value.regions|
    ensures var regions := LoadRegionConfig(env).value.regions;
            EnvSuffix(regions[i]) != EnvSuffix(regions[j])
  {
    var regions := RegionsIn(env.regions.value).value;
    RegionsAreNames(env.regions.value);
    FirstRepeatIff(regions, {});
    assert regions[i] in regions && regions[j] in regions;
    if EnvSuffix(regions[i]) == EnvSuffix(regions[j]) {
      EnvSuffixInjective(regions[i], regions[j]);
    }
  }
}
