/** Declarative reconciliation of KV access rules: a diff of live and declared rules, and the calls
    that apply it to a gateway which refuses to overwrite an existing rule by a different one. */
module KvReconcile {
  import opened Wrappers

  datatype Access = Access(read: string, write: string)

  datatype Rule = Rule(pattern: string, access: Access)

  datatype Change = Change(rule: Rule, from: Access)

  type Rules = map<string, Access>

  // ---------- keyed lists ----------

  /** `new Map(rules.map(r => [r.pattern, r]))`: the last rule of a pattern wins. */
  function Keyed(rules: seq<Rule>): Rules {
    if rules == [] then map[]
    else
      var last := rules[|rules| - 1];
      Keyed(rules[..|rules| - 1])[last.pattern := last.access]
  }

  /** The patterns in the order a Map iterates them: by first insertion. */
  function Order(rules: seq<Rule>): seq<string> {
    if rules == [] then []
    else
      var init, p := Order(rules[..|rules| - 1]), rules[|rules| - 1].pattern;
      if p in init then init else init + [p]
  }

  predicate Distinct(ps: seq<string>) {
    forall i, j :: 0 <= i < j < |ps| ==> ps[i] != ps[j]
  }

  lemma {:induction false} OrderMeansKeys(rules: seq<Rule>)
    ensures Distinct(Order(rules))
    ensures forall p :: p in Order(rules) <==> p in Keyed(rules)
  {
    if rules != [] {
      OrderMeansKeys(rules[..|rules| - 1]);
    }
  }

  /** The last rule of a pattern wins. */
  lemma {:induction false} KeyedMeans(rules: seq<Rule>, p: string)
    ensures p in Keyed(rules) <==> exists i :: 0 <= i < |rules| && rules[i].pattern == p
    ensures p in Keyed(rules) ==> exists i :: LastOf(rules, p, i) && Keyed(rules)[p] == rules[i].access
  {
    if rules != [] {
      var init, last := rules[..|rules| - 1], rules[|rules| - 1];
      KeyedMeans(init, p);
      if last.pattern == p {
        assert LastOf(rules, p, |rules| - 1);
      } else if p in Keyed(init) {
        var i :| LastOf(init, p, i) && Keyed(init)[p] == init[i].access;
        assert LastOf(rules, p, i);
      }
    }
  }

  predicate LastOf(rules: seq<Rule>, p: string, i: int) {
    0 <= i < |rules| && rules[i].pattern == p && forall j :: i < j < |rules| ==> rules[j].pattern != p
  }

  predicate FirstOf(rules: seq<Rule>, p: string, i: int) {
    0 <= i < |rules| && rules[i].pattern == p && forall j :: 0 <= j < i ==> rules[j].pattern != p
  }

  lemma NotBefore(init: seq<Rule>, p: string, rules: seq<Rule>, j: nat)
    requires p !in Keyed(init) && init <= rules && j < |rules| && rules[j].pattern == p
    ensures j >= |init|
  {
    KeyedMeans(init, p);
  }

  /** The order is that of the first rules of the patterns. */
  lemma {:induction false} OrderMeans(rules: seq<Rule>, a: nat, b: nat, i: nat, j: nat)
    requires a < b < |Order(rules)| && FirstOf(rules, Order(rules)[a], i) && FirstOf(rules, Order(rules)[b], j)
    ensures i < j
  {
    var init, last := rules[..|rules| - 1], rules[|rules| - 1];
    OrderMeansKeys(init);
    KeyedMeans(init, Order(rules)[a]);
    if b < |Order(init)| {
      KeyedMeans(init, Order(rules)[b]);
      assert Order(init)[a] in Order(init) && Order(init)[b] in Order(init);
      OrderMeans(init, a, b, i, j);
    } else {
      assert Order(init)[a] in Order(init);
      var k :| 0 <= k < |init| && init[k].pattern == Order(rules)[a];
      assert rules[k].pattern == Order(rules)[a];
      KeyedMeans(init, Order(rules)[b]);
      assert i <= k;
      NotBefore(init, Order(rules)[b], rules, j);
    }
  }

  // ---------- the diff ----------

  function Missing(live: Rules, target: Rules): set<string> {
    set p | p in target && p !in live
  }

  function Differing(live: Rules, target: Rules): set<string> {
    set p | p in target && p in live && live[p] != target[p]
  }

  /** The rules of `from` that `other` has no rule for, in the given order. */
  function Absent(ps: seq<string>, from: Rules, other: Rules): seq<Rule>
    requires forall p :: p in ps ==> p in from
  {
    if ps == [] then []
    else
      var init, p := Absent(ps[..|ps| - 1], from, other), ps[|ps| - 1];
      if p in other then init else init + [Rule(p, from[p])]
  }

  function Changes(ps: seq<string>, live: Rules, target: Rules): seq<Change>
    requires forall p :: p in ps ==> p in target
  {
    if ps == [] then []
    else
      var init, p := Changes(ps[..|ps| - 1], live, target), ps[|ps| - 1];
      if p in live && live[p] != target[p] then init + [Change(Rule(p, target[p]), live[p])] else init
  }

  function Patterns(rs: seq<Rule>): seq<string> {
    seq(|rs|, i requires 0 <= i < |rs| => rs[i].pattern)
  }

  function NewRules(change: seq<Change>): seq<Rule> {
    seq(|change|, i requires 0 <= i < |change| => change[i].rule)
  }

  lemma PatternsSnoc(rs: seq<Rule>, r: Rule)
    ensures Patterns(rs + [r]) == Patterns(rs) + [r.pattern]
  {
  }

  lemma NewRulesSnoc(cs: seq<Change>, c: Change)
    ensures NewRules(cs + [c]) == NewRules(cs) + [c.rule]
  {
  }

  lemma DistinctSnoc(ps: seq<string>, p: string)
    requires Distinct(ps) && p !in ps
    ensures Distinct(ps + [p])
  {
  }

  /** A list of rules that spells the given patterns once each, as a table has them. */
  ghost predicate Lists(rs: seq<Rule>, patterns: set<string>, m: Rules) {
    && Distinct(Patterns(rs))
    && (forall p :: p in Patterns(rs) <==> p in patterns)
    && forall r :: r in rs ==> r.pattern in m && m[r.pattern] == r.access
  }

  lemma {:induction false} AbsentLists(ps: seq<string>, from: Rules, other: Rules)
    requires Distinct(ps) && forall p :: p in ps ==> p in from
    ensures Lists(Absent(ps, from, other), (set p | p in ps && p !in other), from)
  {
    if ps != [] {
      var init, p := ps[..|ps| - 1], ps[|ps| - 1];
      AbsentLists(init, from, other);
      assert forall q :: q in ps <==> q in init || q == p;
      if p !in other {
        PatternsSnoc(Absent(init, from, other), Rule(p, from[p]));
        DistinctSnoc(Patterns(Absent(init, from, other)), p);
      }
    }
  }

  lemma {:induction false} ChangesList(ps: seq<string>, live: Rules, target: Rules)
    requires Distinct(ps) && forall p :: p in ps ==> p in target
    ensures Lists(NewRules(Changes(ps, live, target)), (set p | p in ps && p in live && live[p] != target[p]), target)
  {
    if ps != [] {
      var init, p := ps[..|ps| - 1], ps[|ps| - 1];
      ChangesList(init, live, target);
      assert forall q :: q in ps <==> q in init || q == p;
      if p in live && live[p] != target[p] {
        NewRulesSnoc(Changes(init, live, target), Change(Rule(p, target[p]), live[p]));
        PatternsSnoc(NewRules(Changes(init, live, target)), Rule(p, target[p]));
        DistinctSnoc(Patterns(NewRules(Changes(init, live, target))), p);
      }
    }
  }

  datatype Diff = Diff(add: seq<Rule>, remove: seq<Rule>, change: seq<Change>)

  function DiffOf(live: seq<Rule>, declared: seq<Rule>): Diff {
    OrderMeansKeys(live);
    OrderMeansKeys(declared);
    Diff(Absent(Order(declared), Keyed(declared), Keyed(live)),
         Absent(Order(live), Keyed(live), Keyed(declared)),
         Changes(Order(declared), Keyed(live), Keyed(declared)))
  }

  /** The three parts of a diff, as sets of patterns. */
  lemma DiffParts(live: seq<Rule>, declared: seq<Rule>)
    ensures var d, from, target := DiffOf(live, declared), Keyed(live), Keyed(declared);
            && Lists(d.add, Missing(from, target), target)
            && Lists(d.remove, Missing(target, from), from)
            && Lists(NewRules(d.change), Differing(from, target), target)
  {
    var from, target := Keyed(live), Keyed(declared);
    OrderMeansKeys(live);
    OrderMeansKeys(declared);
    AbsentLists(Order(declared), target, from);
    AbsentLists(Order(live), from, target);
    ChangesList(Order(declared), from, target);
    assert (set p | p in Order(declared) && p !in from) == Missing(from, target);
    assert (set p | p in Order(live) && p !in target) == Missing(target, from);
    assert (set p | p in Order(declared) && p in from && from[p] != target[p]) == Differing(from, target);
  }

  method IndexRules(rules: seq<Rule>) returns (order: seq<string>, m: Rules)
    ensures order == Order(rules) && m == Keyed(rules)
  {
    order, m := [], map[];
    for i := 0 to |rules|
      invariant order == Order(rules[..i]) && m == Keyed(rules[..i])
    {
      assert rules[..i + 1][..i] == rules[..i];
      if rules[i].pattern !in order {
        order := order + [rules[i].pattern];
      }
      m := m[rules[i].pattern := rules[i].access];
    }
    assert rules[..|rules|] == rules;
  }

  lemma AbsentStep(ps: seq<string>, i: nat, from: Rules, other: Rules)
    requires i < |ps| && forall p :: p in ps ==> p in from
    ensures Absent(ps[..i + 1], from, other) ==
            Absent(ps[..i], from, other) + if ps[i] in other then [] else [Rule(ps[i], from[ps[i]])]
  {
    assert ps[..i + 1][..i] == ps[..i];
  }

  lemma ChangesStep(ps: seq<string>, i: nat, live: Rules, target: Rules)
    requires i < |ps| && forall p :: p in ps ==> p in target
    ensures var p := ps[i];
            Changes(ps[..i + 1], live, target) ==
            Changes(ps[..i], live, target)
            + if p in live && live[p] != target[p] then [Change(Rule(p, target[p]), live[p])] else []
  {
    assert ps[..i + 1][..i] == ps[..i];
  }

  method AddsAndChanges(order: seq<string>, target: Rules, live: Rules) returns (add: seq<Rule>, change: seq<Change>)
    requires forall p :: p in order ==> p in target
    ensures add == Absent(order, target, live) && change == Changes(order, live, target)
  {
    add, change := [], [];
    for i := 0 to |order|
      invariant add == Absent(order[..i], target, live)
      invariant change == Changes(order[..i], live, target)
    {
      AbsentStep(order, i, target, live);
      ChangesStep(order, i, live, target);
      var pattern := order[i];
      if pattern !in live {
        add := add + [Rule(pattern, target[pattern])];
      } else if live[pattern] != target[pattern] {
        change := change + [Change(Rule(pattern, target[pattern]), live[pattern])];
      }
    }
    assert order[..|order|] == order;
  }

  method Removals(order: seq<string>, live: Rules, target: Rules) returns (remove: seq<Rule>)
    requires forall p :: p in order ==> p in live
    ensures remove == Absent(order, live, target)
  {
    remove := [];
    for i := 0 to |order|
      invariant remove == Absent(order[..i], live, target)
    {
      AbsentStep(order, i, live, target);
      if order[i] !in target {
        remove := remove + [Rule(order[i], live[order[i]])];
      }
    }
    assert order[..|order|] == order;
  }

  method ComputeDiff(live: seq<Rule>, declared: seq<Rule>) returns (d: Diff)
    ensures d == DiffOf(live, declared)
  {
    OrderMeansKeys(live);
    OrderMeansKeys(declared);
    var liveOrder, liveMap := IndexRules(live);
    var declaredOrder, declaredMap := IndexRules(declared);
    var add, change := AddsAndChanges(declaredOrder, declaredMap, liveMap);
    var remove := Removals(liveOrder, liveMap, declaredMap);
    d := Diff(add, remove, change);
  }

  // ---------- the gateway ----------

  datatype Call = Unexpose(pattern: string) | Expose(pattern: string, access: Access)

  /** One gateway call; None is the refusal to overwrite a rule by a different one. */
  function Do(store: Rules, c: Call): Option<Rules> {
    match c
    case Unexpose(p) => Some(store - {p})
    case Expose(p, a) => if p in store && store[p] != a then None else Some(store[p := a])
  }

  function Exec(store: Rules, calls: seq<Call>): Option<Rules> {
    if calls == [] then Some(store)
    else
      match Exec(store, calls[..|calls| - 1])
      case None => None
      case Some(s) => Do(s, calls[|calls| - 1])
  }

  /** The gateway refuses to replace a rule by a different one, and accepts the same one again without
      any effect. */
  lemma ExposeTwice(store: Rules, calls: seq<Call>, p: string, a: Access, b: Access)
    requires Exec(store, calls + [Call.Expose(p, a)]).Some?
    ensures Exec(store, calls + [Call.Expose(p, a)] + [Call.Expose(p, b)])
            == if a == b then Exec(store, calls + [Call.Expose(p, a)]) else None
  {
    ExecStep(store, calls, Call.Expose(p, a));
    ExecStep(store, calls + [Call.Expose(p, a)], Call.Expose(p, b));
    var s := Exec(store, calls + [Call.Expose(p, a)]).value;
    assert s[p := a] == s;
  }

  class Gateway {
    var rules: Rules
    var calls: seq<Call>

    method Unexpose(pattern: string)
      modifies this
      ensures Do(old(rules), Call.Unexpose(pattern)) == Some(rules)
      ensures calls == old(calls) + [Call.Unexpose(pattern)]
    {
      rules := rules - {pattern};
      calls := calls + [Call.Unexpose(pattern)];
    }

    method Expose(pattern: string, access: Access) returns (ok: bool)
      modifies this
      ensures ok <==> Do(old(rules), Call.Expose(pattern, access)).Some?
      ensures ok ==> Do(old(rules), Call.Expose(pattern, access)) == Some(rules)
      ensures !ok ==> rules == old(rules)
      ensures calls == old(calls) + [Call.Expose(pattern, access)]
    {
      calls := calls + [Call.Expose(pattern, access)];
      if pattern in rules && rules[pattern] != access {
        return false;
      }
      rules := rules[pattern := access];
      ok := true;
    }
  }

  // ---------- applying a diff ----------

  function Unexposes(ps: seq<string>): seq<Call> {
    seq(|ps|, i requires 0 <= i < |ps| => Call.Unexpose(ps[i]))
  }

  function Exposes(rs: seq<Rule>): seq<Call> {
    seq(|rs|, i requires 0 <= i < |rs| => Call.Expose(rs[i].pattern, rs[i].access))
  }

  /** Removals, then the removal half of the changes, then all additions. */
  function Plan(d: Diff): seq<Call> {
    Unexposes(Patterns(d.remove)) + Unexposes(Patterns(NewRules(d.change))) + Exposes(d.add + NewRules(d.change))
  }

  lemma {:induction false} ExecConcat(store: Rules, a: seq<Call>, b: seq<Call>)
    ensures Exec(store, a + b) == match Exec(store, a) case None => None case Some(s) => Exec(s, b)
  {
    if b == [] {
      assert a + b == a;
    } else {
      ExecConcat(store, a, b[..|b| - 1]);
      assert (a + b)[..|a + b| - 1] == a + b[..|b| - 1];
    }
  }

  lemma ExecStep(store: Rules, a: seq<Call>, c: Call)
    ensures Exec(store, a + [c]) == match Exec(store, a) case None => None case Some(s) => Do(s, c)
  {
    assert (a + [c])[..|a|] == a;
  }

  lemma {:induction false} UnexposeAll(store: Rules, ps: seq<string>)
    ensures Exec(store, Unexposes(ps)) == Some(store - (set p | p in ps))
  {
    if ps == [] {
      assert store - (set p | p in ps) == store;
    } else {
      var init := ps[..|ps| - 1];
      UnexposeAll(store, init);
      assert Unexposes(ps)[..|ps| - 1] == Unexposes(init);
      assert (set p | p in ps) == (set p | p in init) + {ps[|ps| - 1]};
      assert store - (set p | p in init) - {ps[|ps| - 1]} == store - (set p | p in ps);
    }
  }

  function Part(patterns: set<string>, m: Rules): Rules {
    map p | p in patterns && p in m :: m[p]
  }

  /** Exposing listed rules on a store without their patterns adds exactly them. */
  lemma {:induction false} ExposeAll(store: Rules, rs: seq<Rule>, patterns: set<string>, m: Rules)
    requires Lists(rs, patterns, m) && forall p :: p in patterns ==> p !in store
    ensures forall p :: p in patterns ==> p in m
    ensures Exec(store, Exposes(rs)) == Some(store + Part(patterns, m))
  {
    ListedKnown(rs, patterns, m);
    if rs == [] {
      assert Part(patterns, m) == map[];
      assert store + map[] == store;
    } else {
      var init, last := rs[..|rs| - 1], rs[|rs| - 1];
      assert rs == init + [last];
      ListsInit(init, last, patterns, m);
      ExposeAll(store, init, patterns - {last.pattern}, m);
      ExposesSnoc(init, last);
      ExecStep(store, Exposes(init), Call.Expose(last.pattern, last.access));
      LastExposed(store, patterns, m, last);
    }
  }

  lemma ExposesSnoc(init: seq<Rule>, last: Rule)
    ensures Exposes(init + [last]) == Exposes(init) + [Call.Expose(last.pattern, last.access)]
  {
  }

  lemma LastExposed(store: Rules, patterns: set<string>, m: Rules, last: Rule)
    requires last.pattern in patterns && last.pattern !in store && forall q :: q in patterns ==> q in m
    requires m[last.pattern] == last.access
    ensures Do(store + Part(patterns - {last.pattern}, m), Call.Expose(last.pattern, last.access)) == Some(store + Part(patterns, m))
  {
    PutLast(store, patterns, m, last.pattern);
  }

  lemma ListedKnown(rs: seq<Rule>, patterns: set<string>, m: Rules)
    requires Lists(rs, patterns, m)
    ensures forall p :: p in patterns ==> p in m
    ensures rs == [] ==> patterns == {}
  {
    forall p | p in patterns
      ensures p in m && rs != []
    {
      var i :| 0 <= i < |rs| && Patterns(rs)[i] == p;
      assert rs[i] in rs;
    }
  }

  lemma PutLast(store: Rules, patterns: set<string>, m: Rules, p: string)
    requires p in patterns && forall q :: q in patterns ==> q in m
    ensures (store + Part(patterns - {p}, m))[p := m[p]] == store + Part(patterns, m)
  {
  }

  lemma DistinctInit(ps: seq<string>, p: string)
    requires Distinct(ps + [p])
    ensures Distinct(ps) && p !in ps
  {
    var all := ps + [p];
    assert forall i :: 0 <= i < |ps| ==> all[i] == ps[i] && all[i] != all[|ps|];
  }

  lemma ListsInit(init: seq<Rule>, last: Rule, patterns: set<string>, m: Rules)
    requires Lists(init + [last], patterns, m)
    ensures Lists(init, patterns - {last.pattern}, m) && last.pattern in patterns
    ensures last.pattern in m && m[last.pattern] == last.access
  {
    PatternsSnoc(init, last);
    var ps := Patterns(init + [last]);
    DistinctInit(Patterns(init), last.pattern);
    assert last.pattern in ps && last in init + [last];
    assert forall r :: r in init ==> r in init + [last];
  }

  lemma ListsConcat(a: seq<Rule>, b: seq<Rule>, pa: set<string>, pb: set<string>, m: Rules)
    requires Lists(a, pa, m) && Lists(b, pb, m) && pa !! pb
    ensures Lists(a + b, pa + pb, m)
  {
    assert Patterns(a + b) == Patterns(a) + Patterns(b);
    forall i, j | 0 <= i < j < |a| + |b|
      ensures Patterns(a + b)[i] != Patterns(a + b)[j]
    {
      if i < |a| <= j {
        assert Patterns(a)[i] in pa && Patterns(b)[j - |a|] in pb;
      }
    }
  }

  lemma UnexposeListed(store: Rules, rs: seq<Rule>, patterns: set<string>, m: Rules)
    requires Lists(rs, patterns, m)
    ensures Exec(store, Unexposes(Patterns(rs))) == Some(store - patterns)
  {
    UnexposeAll(store, Patterns(rs));
    assert (set p | p in Patterns(rs)) == patterns;
  }

  /** The coded order of calls never meets a refusal and ends with exactly the declared rules,
      the last of duplicate declarations winning. */
  lemma PlanConverges(live: seq<Rule>, declared: seq<Rule>)
    ensures Exec(Keyed(live), Plan(DiffOf(live, declared))) == Some(Keyed(declared))
  {
    var d, from, target := DiffOf(live, declared), Keyed(live), Keyed(declared);
    DiffParts(live, declared);
    var gone, added, changed := Missing(target, from), Missing(from, target), Differing(from, target);
    var u1, u2, puts := Unexposes(Patterns(d.remove)), Unexposes(Patterns(NewRules(d.change))), d.add + NewRules(d.change);
    UnexposeListed(from, d.remove, gone, from);
    UnexposeListed(from - gone, NewRules(d.change), changed, target);
    ListsConcat(d.add, NewRules(d.change), added, changed, target);
    ExposeAll(from - gone - changed, puts, added + changed, target);
    ExecConcat(from, u1, u2);
    ExecConcat(from, u1 + u2, Exposes(puts));
    Recombined(from, target);
  }

  lemma Recombined(from: Rules, target: Rules)
    ensures var fill := Missing(from, target) + Differing(from, target);
            from - Missing(target, from) - Differing(from, target) + Part(fill, target) == target
  {
  }

  /** Rules that are already as declared are not touched by any call. */
  lemma EqualRulesUntouched(live: seq<Rule>, declared: seq<Rule>, p: string)
    requires p in Keyed(live) && p in Keyed(declared) && Keyed(live)[p] == Keyed(declared)[p]
    ensures forall c :: c in Plan(DiffOf(live, declared)) ==> c.pattern != p
  {
    var d := DiffOf(live, declared);
    DiffParts(live, declared);
    assert p !in Patterns(d.remove) && p !in Patterns(NewRules(d.change)) && p !in Patterns(d.add);
    NotRemoved(Patterns(d.remove), p);
    NotRemoved(Patterns(NewRules(d.change)), p);
    assert Patterns(d.add + NewRules(d.change)) == Patterns(d.add) + Patterns(NewRules(d.change));
    NotPut(d.add + NewRules(d.change), p);
  }

  lemma NotRemoved(ps: seq<string>, p: string)
    requires p !in ps
    ensures forall c :: c in Unexposes(ps) ==> c.pattern != p
  {
  }

  lemma NotPut(rs: seq<Rule>, p: string)
    requires p !in Patterns(rs)
    ensures forall c :: c in Exposes(rs) ==> c.pattern != p
  {
    forall i | 0 <= i < |rs|
      ensures Exposes(rs)[i].pattern != p
    {
      assert Patterns(rs)[i] == Exposes(rs)[i].pattern;
    }
  }

  method UnexposeEach(g: Gateway, patterns: seq<string>)
    modifies g
    ensures Exec(old(g.rules), Unexposes(patterns)) == Some(g.rules)
    ensures g.calls == old(g.calls) + Unexposes(patterns)
  {
    for i := 0 to |patterns|
      invariant Exec(old(g.rules), Unexposes(patterns[..i])) == Some(g.rules)
      invariant g.calls == old(g.calls) + Unexposes(patterns[..i])
    {
      assert Unexposes(patterns[..i + 1]) == Unexposes(patterns[..i]) + [Call.Unexpose(patterns[i])];
      ExecStep(old(g.rules), Unexposes(patterns[..i]), Call.Unexpose(patterns[i]));
      g.Unexpose(patterns[i]);
    }
    assert patterns[..|patterns|] == patterns;
  }

  lemma ExposesRefused(store: Rules, rs: seq<Rule>, n: nat)
    requires n <= |rs| && Exec(store, Exposes(rs[..n])).None?
    ensures Exec(store, Exposes(rs)).None?
  {
    assert Exposes(rs) == Exposes(rs[..n]) + Exposes(rs[n..]);
    ExecConcat(store, Exposes(rs[..n]), Exposes(rs[n..]));
  }

  /** Stops at the first refusal. */
  method ExposeEach(g: Gateway, rs: seq<Rule>) returns (ok: bool)
    modifies g
    ensures Exec(old(g.rules), Exposes(rs)).Some? ==>
              ok && Exec(old(g.rules), Exposes(rs)) == Some(g.rules) && g.calls == old(g.calls) + Exposes(rs)
    ensures ok ==> Exec(old(g.rules), Exposes(rs)) == Some(g.rules)
  {
    for i := 0 to |rs|
      invariant Exec(old(g.rules), Exposes(rs[..i])) == Some(g.rules)
      invariant g.calls == old(g.calls) + Exposes(rs[..i])
    {
      var c := Call.Expose(rs[i].pattern, rs[i].access);
      assert Exposes(rs[..i + 1]) == Exposes(rs[..i]) + [c];
      ExecStep(old(g.rules), Exposes(rs[..i]), c);
      ok := g.Expose(rs[i].pattern, rs[i].access);
      if !ok {
        ExposesRefused(old(g.rules), rs, i + 1);
        return;
      }
    }
    assert rs[..|rs|] == rs;
    ok := true;
  }

  lemma PlanPhases(store: Rules, d: Diff, s1: Rules, s2: Rules)
    requires Exec(store, Unexposes(Patterns(d.remove))) == Some(s1)
    requires Exec(s1, Unexposes(Patterns(NewRules(d.change)))) == Some(s2)
    ensures Exec(store, Plan(d)) == Exec(s2, Exposes(d.add + NewRules(d.change)))
  {
    var u1, u2 := Unexposes(Patterns(d.remove)), Unexposes(Patterns(NewRules(d.change)));
    ExecConcat(store, u1, u2);
    ExecConcat(store, u1 + u2, Exposes(d.add + NewRules(d.change)));
  }

  /** The apply sequence: removals, the removal half of the changes, then all additions. */
  method ApplyDiff(g: Gateway, d: Diff) returns (ok: bool)
    modifies g
    ensures Exec(old(g.rules), Plan(d)).Some? ==>
              ok && Exec(old(g.rules), Plan(d)) == Some(g.rules) && g.calls == old(g.calls) + Plan(d)
    ensures ok ==> Exec(old(g.rules), Plan(d)) == Some(g.rules)
  {
    RemoveRules(g, d);
    ok := ExposeEach(g, d.add + NewRules(d.change));
  }

  method RemoveRules(g: Gateway, d: Diff)
    modifies g
    ensures Exec(old(g.rules), Plan(d)) == Exec(g.rules, Exposes(d.add + NewRules(d.change)))
    ensures g.calls == old(g.calls) + (Unexposes(Patterns(d.remove)) + Unexposes(Patterns(NewRules(d.change))))
  {
    ghost var store := g.rules;
    UnexposeEach(g, Patterns(d.remove));
    ghost var s1 := g.rules;
    UnexposeEach(g, Patterns(NewRules(d.change)));
    PlanPhases(store, d, s1, g.rules);
  }

  /** Diff and apply against a gateway that holds the live rules. */
  method Apply(g: Gateway, live: seq<Rule>, declared: seq<Rule>) returns (ok: bool)
    requires Keyed(live) == g.rules
    modifies g
    ensures ok && g.rules == Keyed(declared)
    ensures g.calls == old(g.calls) + Plan(DiffOf(live, declared))
  {
    var d := ComputeDiff(live, declared);
    PlanConverges(live, declared);
    ok := ApplyDiff(g, d);
  }

  // ---------- how many calls it takes ----------

  /** Calls a store is away from a target: one per rule to add or remove, two per rule to change. */
  function Distance(store: Rules, target: Rules): nat {
    |Missing(store, target)| + |Missing(target, store)| + 2 * |Differing(store, target)|
  }

  lemma UnexposeDeclared(store: Rules, target: Rules, p: string)
    requires p in store && p in target
    ensures Distance(store - {p}, target) >= Distance(store, target) - 1
  {
    var after := store - {p};
    assert Missing(after, target) == Missing(store, target) + {p};
    assert Missing(target, after) == Missing(target, store);
    assert Differing(after, target) == Differing(store, target) - {p};
  }

  lemma UnexposeUndeclared(store: Rules, target: Rules, p: string)
    requires p in store && p !in target
    ensures Distance(store - {p}, target) >= Distance(store, target) - 1
  {
    var after := store - {p};
    assert Missing(after, target) == Missing(store, target);
    assert Missing(target, store) == Missing(target, after) + {p};
    assert Differing(after, target) == Differing(store, target);
  }

  lemma ExposeDeclared(store: Rules, target: Rules, p: string, a: Access)
    requires p !in store && p in target
    ensures Distance(store[p := a], target) >= Distance(store, target) - 1
  {
    var after := store[p := a];
    assert Missing(store, target) == Missing(after, target) + {p};
    assert Missing(target, after) == Missing(target, store);
    assert Differing(store, target) <= Differing(after, target);
    SubsetSize(Differing(store, target), Differing(after, target));
  }

  lemma SubsetSize(a: set<string>, b: set<string>)
    requires a <= b
    ensures |a| <= |b|
  {
    assert b == a + (b - a);
  }

  lemma ExposeUndeclared(store: Rules, target: Rules, p: string, a: Access)
    requires p !in store && p !in target
    ensures Distance(store[p := a], target) >= Distance(store, target) - 1
  {
    var after := store[p := a];
    assert Missing(after, target) == Missing(store, target);
    assert Missing(target, after) == Missing(target, store) + {p};
    assert Differing(after, target) == Differing(store, target);
  }

  /** No single successful call gets closer by more than one. */
  lemma CallCloses(store: Rules, target: Rules, c: Call)
    requires Do(store, c).Some?
    ensures Distance(Do(store, c).value, target) >= Distance(store, target) - 1
  {
    match c {
      case Unexpose(p) =>
        if p !in store {
          assert store - {p} == store;
        } else if p in target {
          UnexposeDeclared(store, target, p);
        } else {
          UnexposeUndeclared(store, target, p);
        }
      case Expose(p, a) =>
        if p in store {
          assert store[p := a] == store;
        } else if p in target {
          ExposeDeclared(store, target, p, a);
        } else {
          ExposeUndeclared(store, target, p, a);
        }
    }
  }

  /** No call sequence whatever reaches the target in fewer calls. */
  lemma {:induction false} CallsNeeded(store: Rules, target: Rules, calls: seq<Call>)
    requires Exec(store, calls).Some?
    ensures |calls| >= Distance(store, target) - Distance(Exec(store, calls).value, target)
  {
    if calls != [] {
      var init := calls[..|calls| - 1];
      CallsNeeded(store, target, init);
      CallCloses(Exec(store, init).value, target, calls[|calls| - 1]);
    }
  }

  lemma {:induction false} DistinctCount(ps: seq<string>)
    requires Distinct(ps)
    ensures |set p | p in ps| == |ps|
  {
    if ps != [] {
      var init := ps[..|ps| - 1];
      DistinctCount(init);
      assert (set p | p in ps) == (set p | p in init) + {ps[|ps| - 1]};
    }
  }

  lemma {:induction false} PlanLength(live: seq<Rule>, declared: seq<Rule>)
    ensures var d := DiffOf(live, declared);
            && |Plan(d)| == |d.add| + |d.remove| + 2 * |d.change|
            && |Plan(d)| == Distance(Keyed(live), Keyed(declared))
  {
    var d := DiffOf(live, declared);
    DiffParts(live, declared);
    ListedCount(d.add, Missing(Keyed(live), Keyed(declared)), Keyed(declared));
    ListedCount(d.remove, Missing(Keyed(declared), Keyed(live)), Keyed(live));
    ListedCount(NewRules(d.change), Differing(Keyed(live), Keyed(declared)), Keyed(declared));
  }

  lemma ListedCount(rs: seq<Rule>, patterns: set<string>, m: Rules)
    requires Lists(rs, patterns, m)
    ensures |rs| == |patterns|
  {
    DistinctCount(Patterns(rs));
    assert (set p | p in Patterns(rs)) == patterns;
  }

  lemma DistanceZero(target: Rules)
    ensures Distance(target, target) == 0
  {
  }

  /** The plan uses the fewest calls possible: any sequence that turns the live rules into the
      declared ones on such a gateway is at least as long. */
  lemma {:induction false} PlanIsShortest(live: seq<Rule>, declared: seq<Rule>, calls: seq<Call>)
    requires Exec(Keyed(live), calls) == Some(Keyed(declared))
    ensures |Plan(DiffOf(live, declared))| <= |calls|
  {
    PlanLength(live, declared);
    CallsNeeded(Keyed(live), Keyed(declared), calls);
    DistanceZero(Keyed(declared));
  }

  /** Stopped after any prefix of its calls, the reconciliation can be rerun on what it left:
      the rerun converges and needs exactly the calls that were still outstanding. */
  lemma {:induction false} Resumable(live: seq<Rule>, declared: seq<Rule>, n: nat, left: seq<Rule>)
    requires n <= |Plan(DiffOf(live, declared))|
    requires Exec(Keyed(live), Plan(DiffOf(live, declared))[..n]) == Some(Keyed(left))
    ensures Exec(Keyed(left), Plan(DiffOf(left, declared))) == Some(Keyed(declared))
    ensures |Plan(DiffOf(left, declared))| == |Plan(DiffOf(live, declared))| - n
  {
    var plan, rerun := Plan(DiffOf(live, declared)), Plan(DiffOf(left, declared));
    PlanConverges(left, declared);
    PlanConverges(live, declared);
    PlanLength(live, declared);
    PlanLength(left, declared);
    CutPlan(Keyed(live), Keyed(left), Keyed(declared), plan, n, rerun);
  }

  lemma CutPlan(store: Rules, middle: Rules, target: Rules, plan: seq<Call>, n: nat, rerun: seq<Call>)
    requires n <= |plan| && Exec(store, plan[..n]) == Some(middle) && Exec(store, plan) == Some(target)
    requires |plan| == Distance(store, target) && |rerun| == Distance(middle, target)
    ensures |rerun| == |plan| - n
  {
    assert plan == plan[..n] + plan[n..];
    ExecConcat(store, plan[..n], plan[n..]);
    DistanceZero(target);
    CallsNeeded(middle, target, plan[n..]);
    CallsNeeded(store, target, plan[..n]);
  }

  /** Once applied, a second run finds nothing to do. */
  lemma AppliedIsStable(live: seq<Rule>, declared: seq<Rule>)
    requires Keyed(live) == Keyed(declared)
    ensures DiffOf(live, declared) == Diff([], [], [])
  {
    PlanLength(live, declared);
    DistanceZero(Keyed(declared));
  }
}
