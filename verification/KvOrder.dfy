/** The order of the rules at the gateway, which breaks ties between patterns that match the same
    key (`services/control-api/src/services/kv/expose.ts`): a new rule comes last, a rule that is
    put again unchanged keeps its place, and a changed rule is removed and comes back. */
module KvOrder {
  import opened KvReconcile

  // ---------- orders ----------

  function Only(ps: seq<string>, f: string -> bool): seq<string> {
    if ps == [] then []
    else Only(ps[..|ps| - 1], f) + if f(ps[|ps| - 1]) then [ps[|ps| - 1]] else []
  }

  function Shift(order: seq<string>, c: Call): seq<string> {
    match c
    case Unexpose(p) => Only(order, q => q != p)
    case Expose(p, _) => if p in order then order else order + [p]
  }

  /** The order after a sequence of calls that were all accepted. */
  function Shifted(order: seq<string>, calls: seq<Call>): seq<string> {
    if calls == [] then order else Shift(Shifted(order, calls[..|calls| - 1]), calls[|calls| - 1])
  }

  lemma OnlySnoc(ps: seq<string>, p: string, f: string -> bool)
    ensures Only(ps + [p], f) == Only(ps, f) + if f(p) then [p] else []
  {
    assert (ps + [p])[..|ps|] == ps;
  }

  lemma {:induction false} OnlyMeans(ps: seq<string>, f: string -> bool)
    ensures forall p :: p in Only(ps, f) <==> p in ps && f(p)
  {
    if ps != [] {
      OnlyMeans(ps[..|ps| - 1], f);
      assert ps == ps[..|ps| - 1] + [ps[|ps| - 1]];
    }
  }

  lemma {:induction false} OnlySame(ps: seq<string>, f: string -> bool, g: string -> bool)
    requires forall p :: p in ps ==> f(p) == g(p)
    ensures Only(ps, f) == Only(ps, g)
  {
    if ps != [] {
      OnlySame(ps[..|ps| - 1], f, g);
    }
  }

  lemma {:induction false} OnlyAll(ps: seq<string>, f: string -> bool)
    ensures (forall p :: p in ps ==> f(p)) ==> Only(ps, f) == ps
    ensures (forall p :: p in ps ==> !f(p)) ==> Only(ps, f) == []
  {
    if ps != [] {
      OnlyAll(ps[..|ps| - 1], f);
      assert ps == ps[..|ps| - 1] + [ps[|ps| - 1]];
    }
  }

  lemma {:induction false} OnlyConcat(a: seq<string>, b: seq<string>, f: string -> bool)
    ensures Only(a + b, f) == Only(a, f) + Only(b, f)
  {
    if b == [] {
      assert a + b == a;
    } else {
      var init, last := b[..|b| - 1], b[|b| - 1];
      OnlyConcat(a, init, f);
      assert a + b == (a + init) + [last];
      OnlySnoc(a + init, last, f);
    }
  }

  function Both(f: string -> bool, g: string -> bool): string -> bool {
    p => f(p) && g(p)
  }

  lemma {:induction false} OnlyTwice(ps: seq<string>, f: string -> bool, g: string -> bool)
    ensures Only(Only(ps, f), g) == Only(ps, Both(f, g))
  {
    if ps != [] {
      var init, last := ps[..|ps| - 1], ps[|ps| - 1];
      OnlyTwice(init, f, g);
      assert ps == init + [last];
      OnlySnoc(init, last, f);
      OnlySnoc(init, last, Both(f, g));
      OnlySnoc(Only(init, f), last, g);
      assert Only(init, f) + [] == Only(init, f);
    }
  }

  function NotIn(ps: seq<string>): string -> bool {
    p => p !in ps
  }

  // ---------- the three phases of a plan ----------

  lemma {:induction false} ShiftedConcat(order: seq<string>, a: seq<Call>, b: seq<Call>)
    ensures Shifted(order, a + b) == Shifted(Shifted(order, a), b)
  {
    if b == [] {
      assert a + b == a;
    } else {
      ShiftedConcat(order, a, b[..|b| - 1]);
      assert (a + b)[..|a + b| - 1] == a + b[..|b| - 1];
    }
  }

  lemma {:induction false} AfterUnexposes(order: seq<string>, ps: seq<string>)
    ensures Shifted(order, Unexposes(ps)) == Only(order, NotIn(ps))
  {
    if ps == [] {
      OnlyAll(order, NotIn(ps));
    } else {
      var init, last := ps[..|ps| - 1], ps[|ps| - 1];
      AfterUnexposes(order, init);
      assert Unexposes(ps)[..|ps| - 1] == Unexposes(init);
      var other := q => q != last;
      OnlySame(Only(order, NotIn(init)), q => q != last, other);
      OnlyTwice(order, NotIn(init), other);
      assert ps == init + [last];
      OnlySame(order, Both(NotIn(init), other), NotIn(ps));
    }
  }

  lemma {:induction false} AfterExposes(order: seq<string>, rs: seq<Rule>)
    requires Distinct(Patterns(rs)) && forall p :: p in Patterns(rs) ==> p !in order
    ensures Shifted(order, Exposes(rs)) == order + Patterns(rs)
  {
    if rs != [] {
      var init, last := rs[..|rs| - 1], rs[|rs| - 1];
      assert rs == init + [last];
      PatternsSnoc(init, last);
      DistinctInit(Patterns(init), last.pattern);
      AfterExposes(order, init);
      assert Exposes(rs)[..|rs| - 1] == Exposes(init);
    }
  }

  predicate Keeps(from: Rules, target: Rules, p: string) {
    p in from && p in target && from[p] == target[p]
  }

  predicate Adds(from: Rules, target: Rules, p: string) {
    p !in from && p in target
  }

  predicate Alters(from: Rules, target: Rules, p: string) {
    p in from && p in target && from[p] != target[p]
  }

  function Keeping(from: Rules, target: Rules): string -> bool {
    p => Keeps(from, target, p)
  }

  function Adding(from: Rules, target: Rules): string -> bool {
    p => Adds(from, target, p)
  }

  function Altering(from: Rules, target: Rules): string -> bool {
    p => Alters(from, target, p)
  }

  lemma {:induction false} AbsentPatterns(ps: seq<string>, from: Rules, other: Rules)
    requires forall p :: p in ps ==> p in from
    ensures Patterns(Absent(ps, from, other)) == Only(ps, p => p !in other)
  {
    if ps != [] {
      var init, p := ps[..|ps| - 1], ps[|ps| - 1];
      AbsentPatterns(init, from, other);
      if p !in other {
        PatternsSnoc(Absent(init, from, other), Rule(p, from[p]));
      }
    }
  }

  lemma {:induction false} ChangedPatterns(ps: seq<string>, live: Rules, target: Rules)
    requires forall p :: p in ps ==> p in target
    ensures Patterns(NewRules(Changes(ps, live, target))) == Only(ps, Altering(live, target))
  {
    if ps != [] {
      var init, p := ps[..|ps| - 1], ps[|ps| - 1];
      ChangedPatterns(init, live, target);
      if Alters(live, target, p) {
        NewRulesSnoc(Changes(init, live, target), Change(Rule(p, target[p]), live[p]));
        PatternsSnoc(NewRules(Changes(init, live, target)), Rule(p, target[p]));
      }
    }
  }

  /** The order that reconciliation leaves: kept rules as they stood, then additions, then changes,
      both as declared. */
  function Outcome(live: seq<Rule>, declared: seq<Rule>): seq<string> {
    var from, target := Keyed(live), Keyed(declared);
    Only(Order(live), Keeping(from, target))
    + Only(Order(declared), Adding(from, target))
    + Only(Order(declared), Altering(from, target))
  }

  lemma PartPatterns(live: seq<Rule>, declared: seq<Rule>)
    ensures var d, from, target := DiffOf(live, declared), Keyed(live), Keyed(declared);
            && Patterns(d.add) == Only(Order(declared), Adding(from, target))
            && Patterns(NewRules(d.change)) == Only(Order(declared), Altering(from, target))
  {
    var from, target := Keyed(live), Keyed(declared);
    OrderMeansKeys(declared);
    AbsentPatterns(Order(declared), target, from);
    OnlySame(Order(declared), p => p !in from, Adding(from, target));
    ChangedPatterns(Order(declared), from, target);
  }

  /** What the two rounds of removals leave. */
  lemma KeptRemain(live: seq<Rule>, declared: seq<Rule>)
    ensures var d, from, target := DiffOf(live, declared), Keyed(live), Keyed(declared);
            Shifted(Order(live), Unexposes(Patterns(d.remove)) + Unexposes(Patterns(NewRules(d.change))))
            == Only(Order(live), Keeping(from, target))
  {
    var d, from, target := DiffOf(live, declared), Keyed(live), Keyed(declared);
    var gone, changed := Patterns(d.remove), Patterns(NewRules(d.change));
    DiffParts(live, declared);
    OrderMeansKeys(live);
    ShiftedConcat(Order(live), Unexposes(gone), Unexposes(changed));
    AfterUnexposes(Order(live), gone);
    AfterUnexposes(Only(Order(live), NotIn(gone)), changed);
    OnlyTwice(Order(live), NotIn(gone), NotIn(changed));
    OnlySame(Order(live), Both(NotIn(gone), NotIn(changed)), Keeping(from, target));
  }

  lemma PutsComeLast(live: seq<Rule>, declared: seq<Rule>, order: seq<string>)
    requires forall p :: p in order ==> Keeps(Keyed(live), Keyed(declared), p)
    ensures var d := DiffOf(live, declared);
            Shifted(order, Exposes(d.add + NewRules(d.change))) == order + Patterns(d.add) + Patterns(NewRules(d.change))
  {
    var d, from, target := DiffOf(live, declared), Keyed(live), Keyed(declared);
    DiffParts(live, declared);
    ListedComeLast(order, d.add, NewRules(d.change), Missing(from, target), Differing(from, target), target);
  }

  lemma ListedComeLast(order: seq<string>, a: seq<Rule>, b: seq<Rule>, pa: set<string>, pb: set<string>, m: Rules)
    requires Lists(a, pa, m) && Lists(b, pb, m) && pa !! pb && forall p :: p in order ==> p !in pa && p !in pb
    ensures Shifted(order, Exposes(a + b)) == order + Patterns(a) + Patterns(b)
  {
    ListsConcat(a, b, pa, pb, m);
    AfterExposes(order, a + b);
    assert Patterns(a + b) == Patterns(a) + Patterns(b);
  }

  lemma ReconciledOrder(live: seq<Rule>, declared: seq<Rule>)
    ensures Shifted(Order(live), Plan(DiffOf(live, declared))) == Outcome(live, declared)
  {
    var d, keeping := DiffOf(live, declared), Keeping(Keyed(live), Keyed(declared));
    KeptRemain(live, declared);
    OnlyMeans(Order(live), keeping);
    PutsComeLast(live, declared, Only(Order(live), keeping));
    ShiftedConcat(Order(live), Unexposes(Patterns(d.remove)) + Unexposes(Patterns(NewRules(d.change))),
                  Exposes(d.add + NewRules(d.change)));
    PartPatterns(live, declared);
  }

  // ---------- when that is the declared order ----------

  function Kind(from: Rules, target: Rules, p: string): nat {
    if Keeps(from, target, p) then 0 else if Adds(from, target, p) then 1 else 2
  }

  /** Kept rules come first, then additions, then changes. */
  predicate Grouped(ps: seq<string>, kind: string -> nat) {
    forall i, j :: 0 <= i < j < |ps| ==> kind(ps[i]) <= kind(ps[j])
  }

  function IsKind(kind: string -> nat, k: nat): string -> bool {
    p => kind(p) == k
  }

  function OfKind(ps: seq<string>, kind: string -> nat, k: nat): seq<string> {
    Only(ps, IsKind(kind, k))
  }

  function KindOf(from: Rules, target: Rules): string -> nat {
    p => Kind(from, target, p)
  }

  lemma {:induction false} GroupedSplits(ps: seq<string>, kind: string -> nat)
    requires Grouped(ps, kind) && forall p :: p in ps ==> kind(p) <= 2
    ensures ps == OfKind(ps, kind, 0) + OfKind(ps, kind, 1) + OfKind(ps, kind, 2)
  {
    if ps != [] {
      var init, last := ps[..|ps| - 1], ps[|ps| - 1];
      assert ps == init + [last];
      GroupedSplits(init, kind);
      LastIsHighest(init, last, kind);
      OfKindSnoc(init, last, kind);
      AppendLast(OfKind(init, kind, 0), OfKind(init, kind, 1), OfKind(init, kind, 2), last, kind(last));
    }
  }

  lemma AppendLast(a: seq<string>, b: seq<string>, c: seq<string>, last: string, k: nat)
    requires k <= 2 && (k < 2 ==> c == []) && (k < 1 ==> b == [])
    ensures (a + b + c) + [last] ==
            (a + if k == 0 then [last] else []) + (b + if k == 1 then [last] else []) + (c + if k == 2 then [last] else [])
  {
  }

  lemma LastIsHighest(init: seq<string>, last: string, kind: string -> nat)
    requires Grouped(init + [last], kind)
    ensures kind(last) < 2 ==> OfKind(init, kind, 2) == []
    ensures kind(last) < 1 ==> OfKind(init, kind, 1) == []
  {
    var ps := init + [last];
    assert ps[|init|] == last;
    forall p | p in init ensures kind(p) <= kind(last) {
      var i :| 0 <= i < |init| && init[i] == p;
      assert ps[i] == p;
    }
    OnlyAll(init, IsKind(kind, 2));
    OnlyAll(init, IsKind(kind, 1));
  }

  lemma OfKindSnoc(init: seq<string>, last: string, kind: string -> nat)
    ensures forall k: nat :: OfKind(init + [last], kind, k) == OfKind(init, kind, k) + if kind(last) == k then [last] else []
  {
    forall k: nat ensures OfKind(init + [last], kind, k) == OfKind(init, kind, k) + if kind(last) == k then [last] else [] {
      OnlySnoc(init, last, IsKind(kind, k));
    }
  }

  predicate AllOfKind(ps: seq<string>, kind: string -> nat, k: nat) {
    forall i :: 0 <= i < |ps| ==> kind(ps[i]) == k
  }

  lemma SplitIsGrouped(a: seq<string>, b: seq<string>, c: seq<string>, kind: string -> nat)
    requires AllOfKind(a, kind, 0) && AllOfKind(b, kind, 1) && AllOfKind(c, kind, 2)
    ensures Grouped(a + b + c, kind)
  {
  }

  lemma FirstOfSplit(a: seq<string>, b: seq<string>, c: seq<string>, kind: string -> nat)
    requires AllOfKind(a, kind, 0) && AllOfKind(b, kind, 1) && AllOfKind(c, kind, 2)
    ensures OfKind(a + b + c, kind, 0) == a
  {
    OnlyConcat(a + b, c, IsKind(kind, 0));
    OnlyConcat(a, b, IsKind(kind, 0));
    OnlyAll(a, IsKind(kind, 0));
    OnlyAll(b, IsKind(kind, 0));
    OnlyAll(c, IsKind(kind, 0));
    assert a + [] + [] == a;
  }

  lemma OfKindIsOfKind(ps: seq<string>, kind: string -> nat, k: nat)
    ensures AllOfKind(OfKind(ps, kind, k), kind, k)
  {
    OnlyMeans(ps, IsKind(kind, k));
    assert forall i :: 0 <= i < |OfKind(ps, kind, k)| ==> OfKind(ps, kind, k)[i] in OfKind(ps, kind, k);
  }

  lemma OutcomeByKind(live: seq<Rule>, declared: seq<Rule>)
    ensures var from, target := Keyed(live), Keyed(declared); var kind := KindOf(from, target);
            && Outcome(live, declared) == Only(Order(live), Keeping(from, target))
                                          + OfKind(Order(declared), kind, 1) + OfKind(Order(declared), kind, 2)
            && OfKind(Order(declared), kind, 0) == Only(Order(declared), Keeping(from, target))
            && AllOfKind(Only(Order(live), Keeping(from, target)), kind, 0)
  {
    var from, target := Keyed(live), Keyed(declared);
    var kind := KindOf(from, target);
    var ps := Order(declared);
    OrderMeansKeys(declared);
    OnlySame(ps, p => Adds(from, target, p), IsKind(kind, 1));
    OnlySame(ps, p => Alters(from, target, p), IsKind(kind, 2));
    OnlySame(ps, p => Keeps(from, target, p), IsKind(kind, 0));
    OnlyMeans(Order(live), Keeping(from, target));
    var kept := Only(Order(live), Keeping(from, target));
    assert forall i :: 0 <= i < |kept| ==> kept[i] in kept;
  }

  /** Reconciliation leaves the declared order if and only if the kept rules already stand in it and
      it puts them first, additions next and changes last. */
  lemma OrderReproducedIff(live: seq<Rule>, declared: seq<Rule>)
    ensures var from, target := Keyed(live), Keyed(declared); var keeps := Keeping(from, target);
            Shifted(Order(live), Plan(DiffOf(live, declared))) == Order(declared)
            <==> Only(Order(live), keeps) == Only(Order(declared), keeps) && Grouped(Order(declared), KindOf(from, target))
  {
    var from, target := Keyed(live), Keyed(declared);
    var kind := KindOf(from, target);
    var ps, kept := Order(declared), Only(Order(live), Keeping(from, target));
    ReconciledOrder(live, declared);
    OutcomeByKind(live, declared);
    if Grouped(ps, kind) {
      GroupedSplits(ps, kind);
    }
    OfKindIsOfKind(ps, kind, 1);
    OfKindIsOfKind(ps, kind, 2);
    FirstOfSplit(kept, OfKind(ps, kind, 1), OfKind(ps, kind, 2), kind);
    SplitIsGrouped(kept, OfKind(ps, kind, 1), OfKind(ps, kind, 2), kind);
  }

  /** A first reconciliation always does. */
  lemma FirstRunReproduces(declared: seq<Rule>)
    ensures Shifted([], Plan(DiffOf([], declared))) == Order(declared)
  {
    OrderReproducedIff([], declared);
    OrderMeansKeys(declared);
    AllAdded(Order(declared), Keyed(declared));
    assert Keyed([]) == map[] && Order([]) == [];
  }

  lemma AllAdded(ps: seq<string>, target: Rules)
    requires forall p :: p in ps ==> p in target
    ensures Only(ps, Keeping(map[], target)) == [] && Grouped(ps, KindOf(map[], target))
  {
    OnlyAll(ps, Keeping(map[], target));
    assert forall i :: 0 <= i < |ps| ==> ps[i] in ps;
  }

  /** A changed rule that is declared before a kept one ends up behind it. */
  lemma ChangedRuleMovesBack(live: seq<Rule>, declared: seq<Rule>, i: nat, j: nat)
    requires i < j < |Order(declared)|
    requires Alters(Keyed(live), Keyed(declared), Order(declared)[i]) && Keeps(Keyed(live), Keyed(declared), Order(declared)[j])
    ensures Shifted(Order(live), Plan(DiffOf(live, declared))) != Order(declared)
  {
    var kind := KindOf(Keyed(live), Keyed(declared));
    OrderReproducedIff(live, declared);
    assert kind(Order(declared)[i]) > kind(Order(declared)[j]);
  }

  /** Two rules of which the first is changed: the gateway ends with the second one first. */
  lemma ChangedRuleExample()
    ensures var x, y := Access("public", "deny"), Access("authed", "deny");
            var live, declared := [Rule("a", x), Rule("b", x)], [Rule("a", y), Rule("b", x)];
            && Order(declared) == ["a", "b"]
            && Shifted(Order(live), Plan(DiffOf(live, declared))) != Order(declared)
  {
    var x, y := Access("public", "deny"), Access("authed", "deny");
    var live, declared := [Rule("a", x), Rule("b", x)], [Rule("a", y), Rule("b", x)];
    TwoRules("a", "b", x, x);
    TwoRules("a", "b", y, x);
    ChangedRuleMovesBack(live, declared, 0, 1);
  }

  lemma TwoRules(p: string, q: string, x: Access, y: Access)
    requires p != q
    ensures var rules := [Rule(p, x), Rule(q, y)];
            Order(rules) == [p, q] && Keyed(rules) == map[p := x, q := y]
  {
    var rules := [Rule(p, x), Rule(q, y)];
    assert rules[..1] == [Rule(p, x)] && rules[..1][..0] == [];
    assert Order(rules[..1]) == [p] && Keyed(rules[..1]) == map[p := x];
  }
}
