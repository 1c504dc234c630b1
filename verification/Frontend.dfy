/** The per-app static frontend worker: rule matching, asset path resolution, the precedence of
    redirects, files, rewrites and the single-page fallback, and the parsed-rules memo. The
    matcher is the one the deploy-time module carries too. */
module Frontend {
  import opened Wrappers
  import Text
  import Redirects

  type Rule = Redirects.Rule

  // ---------- substitution ----------

  const SPLAT := ":splat"

  /** The replacement text as `String.replace` interprets it: `$$`, `$&`, `` $` `` and `$'` stand
      for a dollar, the match, the text before and the text after it. */
  function Expand(splat: string, before: string, after: string): string {
    if |splat| >= 2 && splat[0] == '$' then
      if splat[1] == '$' then "$" + Expand(splat[2..], before, after)
      else if splat[1] == '&' then SPLAT + Expand(splat[2..], before, after)
      else if splat[1] == '`' then before + Expand(splat[2..], before, after)
      else if splat[1] == '\'' then after + Expand(splat[2..], before, after)
      else [splat[0]] + Expand(splat[1..], before, after)
    else if splat == "" then ""
    else [splat[0]] + Expand(splat[1..], before, after)
  }

  /** `to.replace(/:splat/g, splat)`, at the point where `before` has been scanned. */
  function Substitute(before: string, rest: string, splat: string): string
    decreases |rest|
  {
    if rest == "" then ""
    else if SPLAT <= rest then
      Expand(splat, before, rest[|SPLAT|..]) + Substitute(before + SPLAT, rest[|SPLAT|..], splat)
    else [rest[0]] + Substitute(before + [rest[0]], rest[1..], splat)
  }

  /** What a rule's author expects: every `:splat` becomes the captured text itself. */
  function Literal(rest: string, splat: string): string
    decreases |rest|
  {
    if rest == "" then ""
    else if SPLAT <= rest then splat + Literal(rest[|SPLAT|..], splat)
    else [rest[0]] + Literal(rest[1..], splat)
  }

  predicate IsCode(c: char) {
    c == '$' || c == '&' || c == '`' || c == '\''
  }

  /** The captured text contains a dollar directly followed by one of `$`, `&`, `` ` ``, `'`. */
  predicate HasCode(s: string) {
    exists i :: 0 <= i && i + 1 < |s| && CodeAt(s, i)
  }

  predicate CodeAt(s: string, i: nat)
    requires i + 1 < |s|
  {
    s[i] == '$' && IsCode(s[i + 1])
  }

  lemma HasCodeTail(s: string)
    requires s != ""
    ensures HasCode(s) <==> (|s| >= 2 && CodeAt(s, 0)) || HasCode(s[1..])
  {
    if HasCode(s) {
      var i :| 0 <= i && i + 1 < |s| && CodeAt(s, i);
      if i > 0 {
        assert CodeAt(s[1..], i - 1);
      }
    }
    if HasCode(s[1..]) {
      var i :| 0 <= i && i + 1 < |s[1..]| && CodeAt(s[1..], i);
      assert CodeAt(s, i + 1);
    }
  }

  lemma {:induction false} ExpandPlain(splat: string, before: string, after: string)
    requires !HasCode(splat)
    ensures Expand(splat, before, after) == splat
  {
    if splat != "" {
      HasCodeTail(splat);
      ExpandPlain(splat[1..], before, after);
      assert splat == [splat[0]] + splat[1..];
    }
  }

  lemma {:induction false} SubstitutePlain(before: string, rest: string, splat: string)
    requires !HasCode(splat)
    ensures Substitute(before, rest, splat) == Literal(rest, splat)
    decreases |rest|
  {
    if rest == "" {
    } else if SPLAT <= rest {
      ExpandPlain(splat, before, rest[|SPLAT|..]);
      SubstitutePlain(before + SPLAT, rest[|SPLAT|..], splat);
    } else {
      SubstitutePlain(before + [rest[0]], rest[1..], splat);
    }
  }

  /** Length, with each colon counted as minus nine: every code lowers it when nothing surrounds the match. */
  function Weight(s: string): int {
    if s == "" then 0 else Weight(s[1..]) + if s[0] == ':' then -9 else 1
  }

  lemma {:induction false} WeightConcat(a: string, b: string)
    ensures Weight(a + b) == Weight(a) + Weight(b)
  {
    if a == "" {
      assert a + b == b;
    } else {
      assert (a + b)[1..] == a[1..] + b;
      WeightConcat(a[1..], b);
    }
  }

  lemma SplatWeight()
    ensures Weight(SPLAT) == -4
  {
    assert SPLAT[1..] == "splat" && "splat"[1..] == "plat" && "plat"[1..] == "lat" && "lat"[1..] == "at";
    assert "at"[1..] == "t" && "t"[1..] == "";
    assert Weight("t") == 1 && Weight("at") == 2 && Weight("lat") == 3 && Weight("plat") == 4 && Weight("splat") == 5;
  }

  lemma {:induction false} ExpandLowersWeight(s: string)
    ensures Weight(Expand(s, "", "")) <= Weight(s)
    ensures HasCode(s) ==> Weight(Expand(s, "", "")) < Weight(s)
  {
    if s != "" {
      HasCodeTail(s);
      if |s| >= 2 && CodeAt(s, 0) {
        ExpandLowersWeight(s[2..]);
        assert s[2..] == s[1..][1..];
        var e := Expand(s[2..], "", "");
        if s[1] == '&' {
          SplatWeight();
          WeightConcat(SPLAT, e);
        } else if s[1] == '$' {
          WeightConcat("$", e);
          assert "$"[1..] == "";
        } else {
          WeightConcat("", e);
        }
      } else {
        ExpandLowersWeight(s[1..]);
        WeightConcat([s[0]], Expand(s[1..], "", ""));
        assert [s[0]][1..] == "";
      }
    }
  }

  /** Substitution is literal for every target exactly when the captured text holds no code. */
  lemma SubstitutionIsLiteralIff(splat: string)
    ensures (forall to :: Substitute("", to, splat) == Literal(to, splat)) <==> !HasCode(splat)
  {
    if HasCode(splat) {
      var e := Expand(splat, "", "");
      assert SPLAT[|SPLAT|..] == "";
      assert Substitute("", SPLAT, splat) == e + "" == e;
      assert Literal(SPLAT, splat) == splat + "" == splat;
      ExpandLowersWeight(splat);
      assert Substitute("", SPLAT, splat) != Literal(SPLAT, splat);
    } else {
      forall to ensures Substitute("", to, splat) == Literal(to, splat) {
        SubstitutePlain("", to, splat);
      }
    }
  }

  /** A request path can make a rule answer with something else than the captured text. */
  lemma DollarPathExample()
    ensures MatchRule("/a/$&", Redirects.Rule("/a/*", ":splat", 301)) == Some(":splat")
  {
    var path, rule := "/a/$&", Redirects.Rule("/a/*", ":splat", 301);
    assert rule.from[..2] == "/a" && path[3..] == "$&";
    assert "/a" + "/" == path[..3];
    assert Capture(path, "/a") == "$&";
    assert "$&"[2..] == "" && SPLAT[|SPLAT|..] == "";
    assert Expand("$&", "", "") == SPLAT + "" == SPLAT;
    assert Substitute("", SPLAT, "$&") == SPLAT + "" == SPLAT;
  }

  // ---------- matching ----------

  function DropSlashes(path: string): string {
    if path != "" && path[0] == '/' then DropSlashes(path[1..]) else path
  }

  function Capture(path: string, prefix: string): string {
    if prefix == "" then DropSlashes(path)
    else if |path| <= |prefix| then ""
    else path[|prefix| + 1..]
  }

  function MatchRule(path: string, rule: Rule): Option<string> {
    if Redirects.EndsWithSplat(rule.from) then
      var prefix := rule.from[..|rule.from| - 2];
      if path == prefix || prefix + "/" <= path || prefix == ""
      then Some(Substitute("", rule.to, Capture(path, prefix)))
      else None
    else if path == rule.from then Some(rule.to) else None
  }

  /** A splat rule matches exactly its prefix and what lies below it; on a non-root match the path
      is the prefix itself, capturing nothing, or the prefix, a slash and the captured text. */
  lemma SplatMatch(path: string, rule: Rule)
    requires Redirects.EndsWithSplat(rule.from) && rule.from != "/*"
    ensures var prefix := rule.from[..|rule.from| - 2];
            && (MatchRule(path, rule).Some? <==> path == prefix || exists s :: path == prefix + "/" + s)
            && (MatchRule(path, rule).Some? ==>
                  var s := Capture(path, prefix);
                  && MatchRule(path, rule) == Some(Substitute("", rule.to, s))
                  && ((path == prefix && s == "") || path == prefix + "/" + s))
  {
    var prefix := rule.from[..|rule.from| - 2];
    assert rule.from == prefix + "/*";
    if prefix + "/" <= path {
      assert path == prefix + "/" + path[|prefix| + 1..];
    }
    if s :| path == prefix + "/" + s {
      assert path[..|prefix| + 1] == prefix + "/";
    }
  }

  /** Any other rule matches its own path only, and answers with its target as it stands. */
  lemma ExactMatch(path: string, rule: Rule)
    requires |rule.from| < 2 || rule.from[|rule.from| - 2..] != "/*"
    ensures MatchRule(path, rule) == if path == rule.from then Some(rule.to) else None
  {
    SplatEnd(rule.from);
  }

  lemma SplatEnd(s: string)
    ensures Redirects.EndsWithSplat(s) <==> |s| >= 2 && s[|s| - 2..] == "/*"
  {
    if |s| >= 2 {
      assert s[|s| - 2..] == [s[|s| - 2], s[|s| - 1]];
    }
  }

  lemma CatchAllMatches(path: string, to: string, status: int)
    ensures MatchRule(path, Redirects.Rule("/*", to, status)) == Some(Substitute("", to, Capture(path, "")))
  {
    assert "/*"[..0] == "";
  }

  /** The four codes, in a target with one `:splat` between texts without colons: a dollar, the word
      itself, the text before it and the text after it. */
  lemma DollarCodes(a: string, b: string)
    requires ':' !in a && ':' !in b
    ensures Substitute("", a + ":splat" + b, "$$") == a + "$" + b
    ensures Substitute("", a + ":splat" + b, "$&") == a + ":splat" + b
    ensures Substitute("", a + ":splat" + b, "$`") == a + a + b
    ensures Substitute("", a + ":splat" + b, "$'") == a + b + b
  {
    SubstituteOnce("", a, b, "$$");
    SubstituteOnce("", a, b, "$&");
    SubstituteOnce("", a, b, "$`");
    SubstituteOnce("", a, b, "$'");
    assert "" + a == a;
    OneCode(a, b);
  }

  lemma OneCode(a: string, b: string)
    ensures Expand("$$", a, b) == "$" && Expand("$&", a, b) == ":splat" && Expand("$`", a, b) == a && Expand("$'", a, b) == b
  {
    assert "$$"[2..] == "" && "$&"[2..] == "" && "$`"[2..] == "" && "$'"[2..] == "";
    assert "$" + "" == "$" && SPLAT + "" == ":splat" && a + "" == a && b + "" == b;
  }

  lemma {:induction false} NothingToSubstitute(before: string, rest: string, splat: string)
    requires ':' !in rest
    ensures Substitute(before, rest, splat) == rest
    decreases |rest|
  {
    if rest != "" {
      assert SPLAT[0] == ':' && rest[0] in rest;
      NothingToSubstitute(before + [rest[0]], rest[1..], splat);
      assert rest == [rest[0]] + rest[1..];
    }
  }

  lemma {:induction false} SubstituteOnce(before: string, a: string, b: string, splat: string)
    requires ':' !in a && ':' !in b
    ensures Substitute(before, a + ":splat" + b, splat) == a + Expand(splat, before + a, b) + b
    decreases |a|
  {
    if a == "" {
      SubstituteHit(before, b, splat);
      assert a + ":splat" + b == SPLAT + b && before + a == before;
    } else {
      assert a[0] in a;
      SubstituteMiss(before, a, ":splat", b, splat);
      SubstituteOnce(before + [a[0]], a[1..], b, splat);
      assert before + [a[0]] + a[1..] == before + a;
      Prepended(a, Expand(splat, before + a, b), b);
    }
  }

  lemma SubstituteHit(before: string, b: string, splat: string)
    requires ':' !in b
    ensures Substitute(before, SPLAT + b, splat) == Expand(splat, before, b) + b
  {
    assert (SPLAT + b)[|SPLAT|..] == b;
    NothingToSubstitute(before + SPLAT, b, splat);
  }

  lemma SubstituteMiss(before: string, a: string, middle: string, b: string, splat: string)
    requires a != "" && a[0] != ':'
    ensures Substitute(before, a + middle + b, splat) == [a[0]] + Substitute(before + [a[0]], a[1..] + middle + b, splat)
  {
    var rest := a + middle + b;
    assert rest[0] == a[0] && SPLAT[0] == ':';
    assert rest[1..] == a[1..] + middle + b;
  }

  lemma Prepended(a: string, middle: string, b: string)
    requires a != ""
    ensures [a[0]] + (a[1..] + middle + b) == a + middle + b
  {
    assert a == [a[0]] + a[1..];
  }

  /** The catch-all matches every path and captures it without its leading slashes. */
  lemma {:induction false} CatchAll(path: string)
    ensures Capture(path, "") == "" || Capture(path, "")[0] != '/'
    ensures exists n :: 0 <= n <= |path| && path[n..] == Capture(path, "") && forall i :: 0 <= i < n ==> path[i] == '/'
  {
    if path != "" && path[0] == '/' {
      CatchAll(path[1..]);
      var n :| 0 <= n <= |path[1..]| && path[1..][n..] == Capture(path[1..], "") && forall i :: 0 <= i < n ==> path[1..][i] == '/';
      assert path[n + 1..] == path[1..][n..];
      assert forall i :: 0 <= i < n + 1 ==> path[i] == if i == 0 then '/' else path[1..][i - 1];
    } else {
      assert path[0..] == path;
    }
  }

  datatype Match = Match(rule: Rule, resolved: string)

  function FirstMatch(path: string, rules: seq<Rule>): Option<Match> {
    if rules == [] then None
    else
      match MatchRule(path, rules[0])
      case Some(to) => Some(Match(rules[0], to))
      case None => FirstMatch(path, rules[1..])
  }

  /** First match wins: the answer belongs to the least index whose rule matches. */
  method FindMatch(path: string, rules: seq<Rule>) returns (m: Option<Match>)
    ensures m == FirstMatch(path, rules)
    ensures m.None? <==> forall i :: 0 <= i < |rules| ==> MatchRule(path, rules[i]).None?
    ensures m.Some? ==> exists i ::
              && 0 <= i < |rules| && m.value.rule == rules[i] && MatchRule(path, rules[i]) == Some(m.value.resolved)
              && forall j :: 0 <= j < i ==> MatchRule(path, rules[j]).None?
  {
    for i := 0 to |rules|
      invariant forall j :: 0 <= j < i ==> MatchRule(path, rules[j]).None?
      invariant FirstMatch(path, rules) == FirstMatch(path, rules[i..])
    {
      assert rules[i..][1..] == rules[i + 1..];
      var resolved := MatchRule(path, rules[i]);
      if resolved.Some? {
        return Some(Match(rules[i], resolved.value));
      }
    }
    m := None;
  }

  // ---------- asset paths ----------

  function FileName(path: string): string {
    var parts := Text.Split(path, '/');
    parts[|parts| - 1]
  }

  function EndsWith(s: string, suffix: string): bool {
    |s| >= |suffix| && s[|s| - |suffix|..] == suffix
  }

  function Candidates(path: string): seq<string> {
    if EndsWith(path, "/") then [path, path + "index.html"]
    else if '.' in FileName(path) then [path]
    else [path, path + ".html", path + "/index.html"]
  }

  method ResolveAssetPath(path: string) returns (candidates: seq<string>)
    ensures candidates == Candidates(path)
  {
    candidates := [path];
    if EndsWith(path, "/") {
      candidates := candidates + [path + "index.html"];
      return;
    }
    if '.' !in FileName(path) {
      candidates := candidates + [path + ".html"];
      candidates := candidates + [path + "/index.html"];
    }
  }

  /** `name` is what follows the last slash of `path`, or all of it if there is none. */
  predicate LastPiece(path: string, name: string, alone: bool) {
    && '/' !in name && EndsWith(path, name)
    && (if alone then name == path else |name| < |path| && path[|path| - |name| - 1] == '/')
  }

  lemma LastPieceStep(c: char, rest: string, name: string, alone: bool)
    requires LastPiece(rest, name, alone)
    ensures c == '/' || !alone ==> LastPiece([c] + rest, name, false)
    ensures c != '/' && alone ==> LastPiece([c] + rest, [c] + name, true)
  {
  }

  lemma {:induction false} FileNameMeaning(path: string)
    ensures LastPiece(path, FileName(path), |Text.Split(path, '/')| == 1)
  {
    if path != "" {
      var c, rest := path[0], path[1..];
      assert path == [c] + rest;
      FileNameMeaning(rest);
      FileNameStep(c, rest);
      LastPieceStep(c, rest, FileName(rest), |Text.Split(rest, '/')| == 1);
    }
  }

  lemma FileNameStep(c: char, rest: string)
    ensures var n := |Text.Split(rest, '/')|;
            && FileName([c] + rest) == (if c == '/' || n > 1 then FileName(rest) else [c] + FileName(rest))
            && |Text.Split([c] + rest, '/')| == (if c == '/' then n + 1 else n)
  {
    assert ([c] + rest)[1..] == rest;
  }

  lemma {:induction false} NothingAfterSlash(dir: string)
    requires dir == "" || dir[|dir| - 1] == '/'
    ensures FileName(dir) == ""
  {
    if |dir| == 1 {
      assert dir[1..] == "";
    } else if dir != "" {
      NothingAfterSlash(dir[1..]);
      FileNameMeaning(dir[1..]);
    }
  }

  lemma FileNameIs(dir: string, name: string)
    requires '/' !in name && (dir == "" || dir[|dir| - 1] == '/')
    ensures FileName(dir + name) == name
  {
    Text.SplitSuffix(dir, name, '/');
    NothingAfterSlash(dir);
    assert "" + name == name;
  }

  /** A page below `path` that would be tried alone if it were requested itself. */
  predicate PageBelow(path: string, c: string) {
    path < c && EndsWith(c, ".html") && Candidates(c) == [c]
  }

  lemma {:induction false} HtmlAlone(dir: string, name: string)
    requires '/' !in name && (dir == "" || dir[|dir| - 1] == '/')
    ensures EndsWith(dir + (name + ".html"), ".html") && Candidates(dir + (name + ".html")) == [dir + (name + ".html")]
  {
    var file := name + ".html";
    FileNameIs(dir, file);
    assert file[|file| - 5] == '.' && file[|file| - 1] == 'l';
    EndsInside(dir, name, ".html");
  }

  lemma EndsInside(dir: string, name: string, suffix: string)
    requires suffix != ""
    ensures var c := dir + (name + suffix); EndsWith(c, suffix) && c[|c| - 1] == suffix[|suffix| - 1]
  {
  }

  lemma HtmlBelow(path: string)
    ensures PageBelow(path, path + ".html")
  {
    FileNameMeaning(path);
    var name := FileName(path);
    var dir := path[..|path| - |name|];
    assert path == dir + name;
    HtmlAlone(dir, name);
    assert path + ".html" == dir + (name + ".html");
  }

  lemma IndexBelow(path: string)
    requires EndsWith(path, "/")
    ensures PageBelow(path, path + "index.html")
  {
    assert path[|path| - 1] == '/';
    HtmlAlone(path, "index");
    assert "index" + ".html" == "index.html";
  }

  lemma SlashIndexBelow(path: string)
    ensures PageBelow(path, path + "/index.html")
  {
    IndexBelow(path + "/");
    assert path + "/" + "index.html" == path + "/index.html";
  }

  /** The request path comes first; whatever else is tried is a page below it that would be tried
      alone if it were requested itself. Nothing else is tried exactly for a file name with a dot,
      and no path is tried twice. */
  lemma CandidatesMeaning(path: string)
    ensures Ladder(path, Candidates(path))
    ensures |Candidates(path)| == 1 <==> '.' in FileName(path)
  {
    if EndsWith(path, "/") {
      IndexBelow(path);
      NothingAfterSlash(path);
      LadderOf(path, [path + "index.html"]);
    } else if '.' !in FileName(path) {
      TwoPages(path);
    } else {
      LadderOf(path, []);
    }
  }

  lemma TwoPages(path: string)
    requires !EndsWith(path, "/") && '.' !in FileName(path)
    ensures Ladder(path, Candidates(path)) && |Candidates(path)| == 3
  {
    HtmlBelow(path);
    SlashIndexBelow(path);
    LadderOf(path, [path + ".html", path + "/index.html"]);
  }

  /** `path` and then longer and longer pages below it. */
  ghost predicate Ladder(path: string, cs: seq<string>) {
    && cs != [] && cs[0] == path
    && (forall i :: 0 < i < |cs| ==> PageBelow(path, cs[i]))
    && (forall i, j :: 0 <= i < j < |cs| ==> |cs[i]| < |cs[j]|)
  }

  lemma LadderOf(path: string, pages: seq<string>)
    requires |pages| <= 2 && forall i :: 0 <= i < |pages| ==> PageBelow(path, pages[i])
    requires |pages| == 2 ==> |pages[0]| < |pages[1]|
    ensures Ladder(path, [path] + pages)
  {
    var cs := [path] + pages;
    forall i | 0 < i < |cs| ensures PageBelow(path, cs[i]) {
      assert cs[i] == pages[i - 1];
    }
    assert |cs| == 3 ==> cs[1] == pages[0] && cs[2] == pages[1];
  }

  /** Which pages these are: a directory's index, or the page and the index of an extensionless path. */
  lemma CandidatesNamed(path: string)
    ensures path != "" && path[|path| - 1] == '/' ==> Candidates(path) == [path, path + "index.html"]
    ensures (path == "" || path[|path| - 1] != '/') && '.' !in FileName(path) ==>
              Candidates(path) == [path, path + ".html", path + "/index.html"]
    ensures '.' in FileName(path) ==> Candidates(path) == [path]
  {
    if path != "" && path[|path| - 1] == '/' {
      assert EndsWith(path, "/");
    }
    if EndsWith(path, "/") {
      assert path[|path| - 1] == '/';
      NothingAfterSlash(path);
    }
  }

  /** A directory's page is found with and without the trailing slash. */
  lemma TrailingSlash(path: string)
    requires !EndsWith(path, "/") && '.' !in FileName(path)
    ensures var bare, slash := Candidates(path), Candidates(path + "/");
            bare[|bare| - 1] == slash[|slash| - 1]
  {
    assert EndsWith(path + "/", "/");
    assert path + "/" + "index.html" == path + "/index.html";
  }

  function LowerChar(c: char): char {
    if 'A' <= c <= 'Z' then (c as int + 32) as char else c
  }

  function Lower(s: string): string {
    seq(|s|, i requires 0 <= i < |s| => LowerChar(s[i]))
  }

  predicate RouteLike(path: string) {
    var name := FileName(path);
    '.' !in name || EndsWith(Lower(name), ".htm") || EndsWith(Lower(name), ".html")
  }

  predicate IsLetter(c: char, lower: char, upper: char) {
    c == lower || c == upper
  }

  /** `.htm` or `.html` at the end of a path, in any mixture of cases. */
  predicate IsPageExtension(s: string) {
    && |s| >= 4 && s[0] == '.' && IsLetter(s[1], 'h', 'H') && IsLetter(s[2], 't', 'T') && IsLetter(s[3], 'm', 'M')
    && (|s| == 4 || (|s| == 5 && IsLetter(s[4], 'l', 'L')))
  }

  /** Page-like paths, which get the application page when nothing else is found: those whose last
      piece has no dot, and those that end in a page extension. */
  lemma RouteLikeIff(path: string)
    ensures RouteLike(path) <==> '.' !in FileName(path) || exists k :: 0 <= k <= |path| && IsPageExtension(path[k..])
  {
    FileNameMeaning(path);
    var name := FileName(path);
    var start := |path| - |name|;
    assert path[start..] == name;
    if EndsWith(Lower(name), ".htm") {
      ExtensionOf(path, name, 4);
    }
    if EndsWith(Lower(name), ".html") {
      ExtensionOf(path, name, 5);
    }
    if k :| 0 <= k <= |path| && IsPageExtension(path[k..]) {
      ExtensionInName(path, name, k);
    }
  }

  lemma PageExtensionLower(ext: string)
    ensures IsPageExtension(ext) <==> Lower(ext) == ".htm" || Lower(ext) == ".html"
  {
    if |ext| == 4 {
      assert Lower(ext) == [LowerChar(ext[0]), LowerChar(ext[1]), LowerChar(ext[2]), LowerChar(ext[3])];
    } else if |ext| == 5 {
      assert Lower(ext) == [LowerChar(ext[0]), LowerChar(ext[1]), LowerChar(ext[2]), LowerChar(ext[3]), LowerChar(ext[4])];
    }
  }

  lemma LowerTail(s: string, n: nat)
    requires n <= |s|
    ensures Lower(s)[|s| - n..] == Lower(s[|s| - n..])
  {
  }

  lemma TailOfTail(path: string, name: string, n: nat)
    requires EndsWith(path, name) && n <= |name|
    ensures n <= |path| && name[|name| - n..] == path[|path| - n..]
  {
  }

  lemma ExtensionOf(path: string, name: string, n: nat)
    requires EndsWith(path, name) && ((n == 4 && EndsWith(Lower(name), ".htm")) || (n == 5 && EndsWith(Lower(name), ".html")))
    ensures n <= |path| && IsPageExtension(path[|path| - n..])
  {
    TailOfTail(path, name, n);
    LowerTail(name, n);
    PageExtensionLower(path[|path| - n..]);
  }

  lemma SlashBeforeName(path: string, name: string, k: nat, alone: bool)
    requires LastPiece(path, name, alone) && k <= |path|
    ensures |name| < |path| - k ==> '/' in path[k..]
  {
    if |name| < |path| - k {
      assert path[k..][|path| - |name| - 1 - k] == '/';
    }
  }

  lemma NoSlashInExtension(ext: string)
    requires IsPageExtension(ext)
    ensures '/' !in ext
  {
  }

  lemma ExtensionInName(path: string, name: string, k: nat)
    requires k <= |path| && IsPageExtension(path[k..])
    requires LastPiece(path, name, |Text.Split(path, '/')| == 1)
    ensures EndsWith(Lower(name), ".htm") || EndsWith(Lower(name), ".html")
  {
    var ext := path[k..];
    NoSlashInExtension(ext);
    SlashBeforeName(path, name, k, |Text.Split(path, '/')| == 1);
    TailOfTail(path, name, |ext|);
    LowerTail(name, |ext|);
    PageExtensionLower(ext);
  }

  // ---------- answering a request ----------

  datatype Asset = Asset(status: int, body: string)

  predicate Ok(a: Asset) {
    200 <= a.status < 300
  }

  /** The assets binding, where None is an exception, and URL resolution of redirect targets. */
  datatype Site = Site(asset: string -> Option<Asset>, locate: string -> Option<string>)

  datatype Answer = Redirect(location: string, status: int) | Served(asset: Asset) | WorkerError

  /** An asset that succeeds, or an exception, ends the search among candidates. */
  predicate Decisive(f: Option<Asset>) {
    f.None? || Ok(f.value)
  }

  /** An exception anywhere in the handler is answered with status 500. */
  function Reply(f: Option<Asset>): Answer {
    if f.None? then WorkerError else Served(f.value)
  }

  function FirstOk(site: Site, paths: seq<string>): Option<Answer> {
    if paths == [] then None
    else if Decisive(site.asset(paths[0])) then Some(Reply(site.asset(paths[0])))
    else FirstOk(site, paths[1..])
  }

  predicate RedirectStatus(status: int) {
    status in {301, 302, 303, 307, 308}
  }

  /** What is served when no redirect fires: files first, then a rewrite, then the application page. */
  function ServeFiles(site: Site, path: string, rewrite: Option<string>): Answer {
    var candidates := Candidates(path);
    match FirstOk(site, candidates)
    case Some(answer) => answer
    case None =>
      match if rewrite.None? then None else FirstOk(site, Candidates(rewrite.value))
      case Some(answer) => answer
      case None => Reply(site.asset(if RouteLike(path) then "/index.html" else candidates[|candidates| - 1]))
  }

  function Answered(site: Site, path: string, rules: seq<Rule>): Answer {
    match FirstMatch(path, rules)
    case None => ServeFiles(site, path, None)
    case Some(m) =>
      if 300 <= m.rule.status < 400 then
        match site.locate(m.resolved)
        case None => WorkerError
        case Some(location) =>
          if RedirectStatus(m.rule.status) then Redirect(location, m.rule.status) else WorkerError
      else ServeFiles(site, path, if m.rule.status == 200 then Some(m.resolved) else None)
  }

  method FetchFirstOk(site: Site, paths: seq<string>) returns (hit: Option<Answer>, last: Option<Asset>)
    ensures hit == FirstOk(site, paths)
    ensures hit.None? && paths != [] ==> last.Some? && last == site.asset(paths[|paths| - 1])
  {
    last := None;
    for i := 0 to |paths|
      invariant FirstOk(site, paths) == FirstOk(site, paths[i..])
      invariant i > 0 ==> last.Some? && last == site.asset(paths[i - 1])
    {
      assert paths[i..][1..] == paths[i + 1..];
      var response := site.asset(paths[i]);
      if response.None? {
        return Some(WorkerError), last;
      }
      if Ok(response.value) {
        return Some(Served(response.value)), last;
      }
      last := response;
    }
    hit := None;
  }

  method Fetch(site: Site, path: string, rules: seq<Rule>) returns (answer: Answer)
    ensures answer == Answered(site, path, rules)
  {
    var m := FindMatch(path, rules);
    if m.Some? && 300 <= m.value.rule.status < 400 {
      var location := site.locate(m.value.resolved);
      if location.None? || !RedirectStatus(m.value.rule.status) {
        return WorkerError;
      }
      return Redirect(location.value, m.value.rule.status);
    }
    var candidates := ResolveAssetPath(path);
    var hit, lastAsset := FetchFirstOk(site, candidates);
    if hit.Some? {
      return hit.value;
    }
    if m.Some? && m.value.rule.status == 200 {
      var targets := ResolveAssetPath(m.value.resolved);
      var rewritten, _ := FetchFirstOk(site, targets);
      if rewritten.Some? {
        return rewritten.value;
      }
    }
    if RouteLike(path) {
      return Reply(site.asset("/index.html"));
    }
    answer := Served(lastAsset.value);
  }

  // ---------- precedence ----------

  /** An exception, or an answer with a status of the two hundreds. */
  predicate EndsSearch(f: Option<Asset>) {
    match f
    case None => true
    case Some(asset) => 200 <= asset.status <= 299
  }

  /** Candidate k succeeds or throws, and every one before it was answered without success. */
  ghost predicate LeastHit(site: Site, paths: seq<string>, k: int) {
    0 <= k < |paths| && EndsSearch(site.asset(paths[k])) && forall j :: 0 <= j < k ==> !EndsSearch(site.asset(paths[j]))
  }

  /** The asset itself, or an error for an exception. */
  function AsAnswer(f: Option<Asset>): Answer {
    match f
    case None => WorkerError
    case Some(asset) => Served(asset)
  }

  /** Rule i matches, giving `to`, and none before it does. */
  ghost predicate LeastMatch(path: string, rules: seq<Rule>, i: int, to: string) {
    0 <= i < |rules| && MatchRule(path, rules[i]) == Some(to) && forall j :: 0 <= j < i ==> MatchRule(path, rules[j]).None?
  }

  /** The lookup ends at the first candidate that succeeds or throws, and finds nothing exactly when
      none does. */
  lemma {:induction false} FirstOkMeaning(site: Site, paths: seq<string>)
    ensures FirstOk(site, paths).None? <==> forall p :: p in paths ==> !EndsSearch(site.asset(p))
    ensures FirstOk(site, paths).Some? ==> exists k :: LeastHit(site, paths, k) && FirstOk(site, paths).value == AsAnswer(site.asset(paths[k]))
  {
    if paths != [] {
      FirstOkMeaning(site, paths[1..]);
      assert paths == [paths[0]] + paths[1..];
      if Decisive(site.asset(paths[0])) {
        assert LeastHit(site, paths, 0);
      } else if FirstOk(site, paths).Some? {
        var k :| LeastHit(site, paths[1..], k) && FirstOk(site, paths[1..]).value == AsAnswer(site.asset(paths[1..][k]));
        assert forall j :: 0 < j <= k ==> paths[j] == paths[1..][j - 1];
        assert LeastHit(site, paths, k + 1);
      }
    }
  }

  lemma {:induction false} FirstMatchMeaning(path: string, rules: seq<Rule>)
    ensures FirstMatch(path, rules).None? ==> forall i :: 0 <= i < |rules| ==> MatchRule(path, rules[i]).None?
    ensures FirstMatch(path, rules).Some? ==>
              var m := FirstMatch(path, rules).value;
              exists i :: LeastMatch(path, rules, i, m.resolved) && rules[i] == m.rule
  {
    if rules != [] {
      FirstMatchMeaning(path, rules[1..]);
      assert forall j :: 0 < j < |rules| ==> rules[j] == rules[1..][j - 1];
      if MatchRule(path, rules[0]).Some? {
        assert LeastMatch(path, rules, 0, MatchRule(path, rules[0]).value);
      } else if FirstMatch(path, rules).Some? {
        var m := FirstMatch(path, rules[1..]).value;
        var i :| LeastMatch(path, rules[1..], i, m.resolved) && rules[1..][i] == m.rule;
        assert LeastMatch(path, rules, i + 1, m.resolved);
      }
    }
  }

  // ---------- precedence, declaratively ----------

  predicate IsRedirectRule(r: Rule) {
    300 <= r.status < 400
  }

  function RedirectAnswer(site: Site, r: Rule, to: string): Answer {
    if site.locate(to).Some? && (r.status == 301 || r.status == 302 || r.status == 303 || r.status == 307 || r.status == 308) then Redirect(site.locate(to).value, r.status) else WorkerError
  }

  ghost predicate ByRedirect(site: Site, path: string, rules: seq<Rule>, answer: Answer) {
    exists i, to :: LeastMatch(path, rules, i, to) && IsRedirectRule(rules[i]) && answer == RedirectAnswer(site, rules[i], to)
  }

  ghost predicate NoRedirect(path: string, rules: seq<Rule>) {
    forall i, to :: LeastMatch(path, rules, i, to) ==> !IsRedirectRule(rules[i])
  }

  ghost predicate ByFile(site: Site, path: string, answer: Answer) {
    exists k :: LeastHit(site, Candidates(path), k) && answer == AsAnswer(site.asset(Candidates(path)[k]))
  }

  /** The first match is a rewrite, and a candidate of its target decides. */
  ghost predicate ByRewrite(site: Site, path: string, rules: seq<Rule>, answer: Answer) {
    exists i, to :: LeastMatch(path, rules, i, to) && rules[i].status == 200 && ByFile(site, to, answer)
  }

  ghost predicate NoRewrite(site: Site, path: string, rules: seq<Rule>) {
    forall i, to :: LeastMatch(path, rules, i, to) && rules[i].status == 200 ==> !Decided(site, to)
  }

  function Fallback(site: Site, path: string): Answer {
    var cs := Candidates(path);
    AsAnswer(site.asset(if RouteLike(path) then "/index.html" else cs[|cs| - 1]))
  }

  /** Some candidate succeeds or throws. */
  predicate Decided(site: Site, path: string) {
    exists p :: p in Candidates(path) && EndsSearch(site.asset(p))
  }

  /** Redirects win over files, files over rewrites, rewrites over the application page of page-like
      paths, and every other miss is answered by the last candidate; an exception while a candidate
      is fetched ends the request there. */
  ghost predicate Precedence(site: Site, path: string, rules: seq<Rule>, answer: Answer) {
    || ByRedirect(site, path, rules, answer)
    || (NoRedirect(path, rules) && ByFile(site, path, answer))
    || (NoRedirect(path, rules) && !Decided(site, path) && ByRewrite(site, path, rules, answer))
    || (NoRedirect(path, rules) && !Decided(site, path) && NoRewrite(site, path, rules) && answer == Fallback(site, path))
  }

  lemma LeastMatchUnique(path: string, rules: seq<Rule>, i: int, to: string, j: int, other: string)
    requires LeastMatch(path, rules, i, to) && LeastMatch(path, rules, j, other)
    ensures i == j && to == other
  {
  }

  lemma FirstOkIsFile(site: Site, path: string)
    ensures FirstOk(site, Candidates(path)).None? <==> !Decided(site, path)
    ensures FirstOk(site, Candidates(path)).Some? ==> ByFile(site, path, FirstOk(site, Candidates(path)).value)
  {
    FirstOkMeaning(site, Candidates(path));
  }

  lemma HitsAgree(site: Site, path: string, a: Answer, b: Answer)
    requires ByFile(site, path, a) && ByFile(site, path, b)
    ensures a == b
  {
    var k :| LeastHit(site, Candidates(path), k) && a == AsAnswer(site.asset(Candidates(path)[k]));
    var l :| LeastHit(site, Candidates(path), l) && b == AsAnswer(site.asset(Candidates(path)[l]));
  }

  lemma ByFileIsDecided(site: Site, path: string, a: Answer)
    requires ByFile(site, path, a)
    ensures Decided(site, path)
  {
    var k :| LeastHit(site, Candidates(path), k) && a == AsAnswer(site.asset(Candidates(path)[k]));
    assert Candidates(path)[k] in Candidates(path);
  }

  lemma ServedWithoutRules(site: Site, path: string, rules: seq<Rule>)
    requires FirstMatch(path, rules).None?
    ensures Precedence(site, path, rules, Answered(site, path, rules))
  {
    FirstMatchMeaning(path, rules);
    FirstOkIsFile(site, path);
  }

  /** The only match there is. */
  ghost predicate OnlyMatch(path: string, rules: seq<Rule>, i: int, m: Match) {
    && LeastMatch(path, rules, i, m.resolved) && rules[i] == m.rule
    && forall j, to :: LeastMatch(path, rules, j, to) ==> j == i && to == m.resolved
  }

  lemma MatchedRedirect(site: Site, path: string, rules: seq<Rule>, i: int, m: Match)
    requires FirstMatch(path, rules) == Some(m) && OnlyMatch(path, rules, i, m) && IsRedirectRule(m.rule)
    ensures ByRedirect(site, path, rules, Answered(site, path, rules))
  {
    assert Answered(site, path, rules) == RedirectAnswer(site, rules[i], m.resolved);
  }

  lemma MatchedRewrite(site: Site, path: string, rules: seq<Rule>, i: int, m: Match)
    requires FirstMatch(path, rules) == Some(m) && OnlyMatch(path, rules, i, m) && m.rule.status == 200
    ensures Precedence(site, path, rules, Answered(site, path, rules))
  {
    assert NoRedirect(path, rules);
    FirstOkIsFile(site, path);
    FirstOkIsFile(site, m.resolved);
    if Decided(site, m.resolved) && !Decided(site, path) {
      assert ByRewrite(site, path, rules, Answered(site, path, rules));
    }
  }

  lemma MatchedOther(site: Site, path: string, rules: seq<Rule>, i: int, m: Match)
    requires FirstMatch(path, rules) == Some(m) && OnlyMatch(path, rules, i, m) && m.rule.status != 200 && !IsRedirectRule(m.rule)
    ensures Precedence(site, path, rules, Answered(site, path, rules))
  {
    assert NoRedirect(path, rules) && NoRewrite(site, path, rules);
    FirstOkIsFile(site, path);
  }

  lemma MatchedPrecedence(site: Site, path: string, rules: seq<Rule>, i: int, m: Match)
    requires FirstMatch(path, rules) == Some(m) && LeastMatch(path, rules, i, m.resolved) && rules[i] == m.rule
    ensures Precedence(site, path, rules, Answered(site, path, rules))
  {
    forall j, to | LeastMatch(path, rules, j, to) ensures j == i && to == m.resolved {
      LeastMatchUnique(path, rules, i, m.resolved, j, to);
    }
    if IsRedirectRule(m.rule) {
      MatchedRedirect(site, path, rules, i, m);
    } else if m.rule.status == 200 {
      MatchedRewrite(site, path, rules, i, m);
    } else {
      MatchedOther(site, path, rules, i, m);
    }
  }

  lemma PrecedenceHolds(site: Site, path: string, rules: seq<Rule>)
    ensures Precedence(site, path, rules, Answered(site, path, rules))
  {
    FirstMatchMeaning(path, rules);
    if FirstMatch(path, rules).None? {
      ServedWithoutRules(site, path, rules);
    } else {
      var m := FirstMatch(path, rules).value;
      var i :| LeastMatch(path, rules, i, m.resolved) && rules[i] == m.rule;
      MatchedPrecedence(site, path, rules, i, m);
    }
  }

  lemma RewritesAgree(site: Site, path: string, rules: seq<Rule>, a: Answer, b: Answer)
    requires ByRewrite(site, path, rules, a) && ByRewrite(site, path, rules, b)
    ensures a == b
  {
    var i, to :| LeastMatch(path, rules, i, to) && rules[i].status == 200 && ByFile(site, to, a);
    var j, other :| LeastMatch(path, rules, j, other) && rules[j].status == 200 && ByFile(site, other, b);
    LeastMatchUnique(path, rules, i, to, j, other);
    HitsAgree(site, to, a, b);
  }

  lemma RewriteHasTarget(site: Site, path: string, rules: seq<Rule>, a: Answer)
    requires ByRewrite(site, path, rules, a)
    ensures !NoRewrite(site, path, rules)
  {
    var i, to :| LeastMatch(path, rules, i, to) && rules[i].status == 200 && ByFile(site, to, a);
    ByFileIsDecided(site, to, a);
  }

  lemma RedirectsAgree(site: Site, path: string, rules: seq<Rule>, a: Answer, b: Answer)
    requires ByRedirect(site, path, rules, a)
    ensures !NoRedirect(path, rules)
    ensures ByRedirect(site, path, rules, b) ==> a == b
  {
    var i, to :| LeastMatch(path, rules, i, to) && IsRedirectRule(rules[i]) && a == RedirectAnswer(site, rules[i], to);
    if ByRedirect(site, path, rules, b) {
      var j, other :| LeastMatch(path, rules, j, other) && IsRedirectRule(rules[j]) && b == RedirectAnswer(site, rules[j], other);
      LeastMatchUnique(path, rules, i, to, j, other);
    }
  }

  lemma PrecedenceUnique(site: Site, path: string, rules: seq<Rule>, a: Answer, b: Answer)
    requires Precedence(site, path, rules, a) && Precedence(site, path, rules, b)
    ensures a == b
  {
    if ByRedirect(site, path, rules, a) {
      RedirectsAgree(site, path, rules, a, b);
    } else if ByRedirect(site, path, rules, b) {
      RedirectsAgree(site, path, rules, b, a);
    } else if Decided(site, path) {
      HitsAgree(site, path, a, b);
    } else {
      if ByFile(site, path, a) { ByFileIsDecided(site, path, a); }
      if ByFile(site, path, b) { ByFileIsDecided(site, path, b); }
      if ByRewrite(site, path, rules, a) { RewriteHasTarget(site, path, rules, a); }
      if ByRewrite(site, path, rules, b) { RewriteHasTarget(site, path, rules, b); }
      if ByRewrite(site, path, rules, a) && ByRewrite(site, path, rules, b) { RewritesAgree(site, path, rules, a, b); }
    }
  }

  /** The handler's answer is the one that the precedence describes, and the only one. */
  lemma AnswerIffPrecedence(site: Site, path: string, rules: seq<Rule>, answer: Answer)
    ensures answer == Answered(site, path, rules) <==> Precedence(site, path, rules, answer)
  {
    PrecedenceHolds(site, path, rules);
    if Precedence(site, path, rules, answer) {
      PrecedenceUnique(site, path, rules, answer, Answered(site, path, rules));
    }
  }

  predicate Succeeds(f: Option<Asset>) {
    f.Some? && 200 <= f.value.status <= 299
  }

  predicate HasFile(site: Site, path: string) {
    exists p :: p in Candidates(path) && Succeeds(site.asset(p))
  }

  /** A redirect rule that matches first decides the answer, whatever files exist. */
  lemma RedirectsWin(site: Site, other: Site, path: string, rules: seq<Rule>)
    requires FirstMatch(path, rules).Some? && 300 <= FirstMatch(path, rules).value.rule.status < 400
    requires site.locate == other.locate
    ensures Answered(site, path, rules) == Answered(other, path, rules)
    ensures !Answered(site, path, rules).Served?
  {
  }

  /** Without a redirect a real file is served exactly as if there were no rules at all; only an
      exception on an earlier candidate can keep it from being served. */
  lemma FilesBeatRewrites(site: Site, path: string, rules: seq<Rule>)
    requires FirstMatch(path, rules).Some? ==> !(300 <= FirstMatch(path, rules).value.rule.status < 400)
    requires HasFile(site, path)
    ensures Answered(site, path, rules) == Answered(site, path, [])
    ensures var answer := Answered(site, path, rules);
            || (answer.Served? && Ok(answer.asset))
            || (answer.WorkerError? && exists p :: p in Candidates(path) && site.asset(p).None?)
  {
    FirstOkMeaning(site, Candidates(path));
    FirstOkReply(site, Candidates(path));
  }

  /** What ends a search is a success, or an exception of one of the candidates. */
  lemma FirstOkReply(site: Site, paths: seq<string>)
    ensures FirstOk(site, paths).Some? ==>
              var answer := FirstOk(site, paths).value;
              || (answer.Served? && Ok(answer.asset) && exists p :: p in paths && Succeeds(site.asset(p)))
              || (answer.WorkerError? && exists p :: p in paths && site.asset(p).None?)
  {
    FirstOkMeaning(site, paths);
    if FirstOk(site, paths).Some? {
      var k :| LeastHit(site, paths, k) && FirstOk(site, paths).value == AsAnswer(site.asset(paths[k]));
      assert paths[k] in paths;
    }
  }

  /** A served answer is a success exactly when the file, the rewrite target or (for page-like
      paths only) the application page exists: asset-shaped misses are honest. */
  lemma SuccessMeans(site: Site, path: string, rules: seq<Rule>)
    requires Answered(site, path, rules).Served?
    ensures var m := FirstMatch(path, rules);
            200 <= Answered(site, path, rules).asset.status <= 299 <==>
              || HasFile(site, path)
              || (m.Some? && m.value.rule.status == 200 && HasFile(site, m.value.resolved))
              || (RouteLike(path) && Succeeds(site.asset("/index.html")))
  {
    var m := FirstMatch(path, rules);
    SuccessAmong(site, path, if m.Some? && m.value.rule.status == 200 then Some(m.value.resolved) else None);
  }

  lemma SuccessAmong(site: Site, path: string, rewrite: Option<string>)
    requires ServeFiles(site, path, rewrite).Served?
    ensures Ok(ServeFiles(site, path, rewrite).asset) <==>
              || HasFile(site, path)
              || (rewrite.Some? && HasFile(site, rewrite.value))
              || (RouteLike(path) && Succeeds(site.asset("/index.html")))
  {
    FileFound(site, path);
    if rewrite.Some? {
      FileFound(site, rewrite.value);
    }
    var candidates := Candidates(path);
    assert candidates[|candidates| - 1] in candidates;
  }

  lemma FileFound(site: Site, path: string)
    ensures FirstOk(site, Candidates(path)).None? ==> !HasFile(site, path)
    ensures FirstOk(site, Candidates(path)).Some? && FirstOk(site, Candidates(path)).value.Served? ==>
              HasFile(site, path) && Ok(FirstOk(site, Candidates(path)).value.asset)
  {
    FirstOkMeaning(site, Candidates(path));
    FirstOkReply(site, Candidates(path));
  }

  lemma {:induction false} FirstMatchAmong(path: string, rules: seq<Rule>)
    requires FirstMatch(path, rules).Some?
    ensures FirstMatch(path, rules).value.rule in rules
  {
    if MatchRule(path, rules[0]).None? {
      FirstMatchAmong(path, rules[1..]);
    }
  }

  /** Every rule the compiler emits is acted on: the first match either redirects with its own
      status or rewrites; only an unresolvable redirect target is an error. */
  lemma EmittedRulesActed(site: Site, path: string, text: string)
    ensures var rules := Redirects.RulesOf(Redirects.Lines(text));
            var m := FirstMatch(path, rules);
            m.Some? ==>
              && (m.value.rule.status == 200 || RedirectStatus(m.value.rule.status))
              && (m.value.rule.status == 200 ==>
                    Answered(site, path, rules) == ServeFiles(site, path, Some(m.value.resolved)))
              && (m.value.rule.status != 200 && site.locate(m.value.resolved).Some? ==>
                    Answered(site, path, rules) == Redirect(site.locate(m.value.resolved).value, m.value.rule.status))
  {
    var rules := Redirects.RulesOf(Redirects.Lines(text));
    Redirects.EmittedShape(Redirects.Lines(text));
    if FirstMatch(path, rules).Some? {
      FirstMatchAmong(path, rules);
      ActedOn(site, path, rules);
    }
  }

  lemma ActedOn(site: Site, path: string, rules: seq<Rule>)
    requires FirstMatch(path, rules).Some? && FirstMatch(path, rules).value.rule.status in Redirects.VALID_STATUSES
    ensures var m := FirstMatch(path, rules).value;
            && (m.rule.status == 200 || RedirectStatus(m.rule.status))
            && (m.rule.status == 200 ==> Answered(site, path, rules) == ServeFiles(site, path, Some(m.resolved)))
            && (m.rule.status != 200 && site.locate(m.resolved).Some? ==>
                  Answered(site, path, rules) == Redirect(site.locate(m.resolved).value, m.rule.status))
  {
  }

  // ---------- the memo ----------

  /** An element of the decoded binding: a rule, or something that does not have a rule's fields. */
  datatype Json = RuleLike(rule: Rule) | Junk

  function KeepRule(j: Json): seq<Rule> {
    if j.RuleLike? then [j.rule] else []
  }

  function KeepRules(parsed: seq<Json>): seq<Rule> {
    if parsed == [] then []
    else KeepRule(parsed[0]) + KeepRules(parsed[1..])
  }

  /** The rules a binding stands for; text that is no JSON array (None) stands for none. */
  function RulesIn(decode: string -> Option<seq<Json>>, source: Option<string>): seq<Rule> {
    if source.None? || source.value == "" then []
    else
      match decode(source.value)
      case None => []
      case Some(parsed) => KeepRules(parsed)
  }

  lemma {:induction false} KeptSide(a: seq<Json>, b: seq<Json>)
    ensures KeepRules(a + b) == KeepRules(a) + KeepRules(b)
  {
    if a == [] {
      assert a + b == b;
    } else {
      assert (a + b)[1..] == a[1..] + b && (a + b)[0] == a[0];
      KeptSide(a[1..], b);
      assert KeepRule(a[0]) + (KeepRules(a[1..]) + KeepRules(b)) == KeepRule(a[0]) + KeepRules(a[1..]) + KeepRules(b);
    }
  }

  function Encoded(rules: seq<Rule>): seq<Json> {
    seq(|rules|, i requires 0 <= i < |rules| => RuleLike(rules[i]))
  }

  lemma {:induction false} EncodedKept(rules: seq<Rule>)
    ensures KeepRules(Encoded(rules)) == rules
  {
    if rules != [] {
      assert Encoded(rules)[1..] == Encoded(rules[1..]);
      EncodedKept(rules[1..]);
    }
  }

  /** A binding that spells rules stands for these rules in their order, wherever anything else
      stands between them; one that is unset, empty or no JSON array stands for none. */
  lemma BindingMeans(decode: string -> Option<seq<Json>>, source: string, before: seq<Rule>, after: seq<Rule>)
    ensures RulesIn(decode, None) == [] && RulesIn(decode, Some("")) == []
    ensures decode(source).None? ==> RulesIn(decode, Some(source)) == []
    ensures source != "" && decode(source) == Some(Encoded(before)) ==> RulesIn(decode, Some(source)) == before
    ensures source != "" && decode(source) == Some(Encoded(before) + [Junk] + Encoded(after)) ==>
              RulesIn(decode, Some(source)) == before + after
  {
    EncodedKept(before);
    JunkDropped(before, after);
  }

  lemma JunkDropped(before: seq<Rule>, after: seq<Rule>)
    ensures KeepRules(Encoded(before) + [Junk] + Encoded(after)) == before + after
  {
    EncodedKept(before);
    EncodedKept(after);
    KeptSide(Encoded(before) + [Junk], Encoded(after));
    KeptSide(Encoded(before), [Junk]);
    assert [Junk][1..] == [];
  }

  class RuleMemo {
    const decode: string -> Option<seq<Json>>
    var cachedRules: Option<seq<Rule>>
    var cachedSource: Option<string>

    predicate Valid()
      reads this
    {
      cachedRules.Some? ==> cachedRules.value == RulesIn(decode, cachedSource)
    }

    constructor (decode: string -> Option<seq<Json>>)
      ensures Valid() && this.decode == decode
    {
      this.decode := decode;
      cachedRules, cachedSource := None, None;
    }

    /** The memo is invisible: every call returns the rules of the binding it was given. */
    method Load(source: Option<string>) returns (rules: seq<Rule>)
      requires Valid()
      modifies this
      ensures Valid() && rules == RulesIn(decode, source)
    {
      if source == cachedSource && cachedRules.Some? {
        return cachedRules.value;
      }
      cachedSource := source;
      if source.None? || source.value == "" {
        cachedRules := Some([]);
        return [];
      }
      var parsed := decode(source.value);
      if parsed.Some? {
        rules := KeepRules(parsed.value);
        cachedRules := Some(rules);
        return;
      }
      cachedRules := Some([]);
      rules := [];
    }
  }

  /** A worker answering any sequence of requests, each with its own binding, answers each
      one as a fresh worker would. */
  method ServeAll(site: Site, memo: RuleMemo, requests: seq<(string, Option<string>)>) returns (answers: seq<Answer>)
    requires memo.Valid()
    modifies memo
    ensures memo.Valid() && |answers| == |requests|
    ensures forall i :: 0 <= i < |requests| ==>
              answers[i] == Answered(site, requests[i].0, RulesIn(memo.decode, requests[i].1))
  {
    answers := [];
    for i := 0 to |requests|
      invariant memo.Valid() && |answers| == i
      invariant forall j :: 0 <= j < i ==>
                  answers[j] == Answered(site, requests[j].0, RulesIn(memo.decode, requests[j].1))
    {
      var rules := memo.Load(requests[i].1);
      var answer := Fetch(site, requests[i].0, rules);
      answers := answers + [answer];
    }
  }
}
