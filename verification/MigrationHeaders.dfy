/** Headers of migration files and the planning step that applies or skips each file. */
module MigrationHeaders {
  import opened Wrappers
  import Text

  datatype Scope = Platform | Runtime | Data

  datatype Phase = PreDeploy | PostDeploy

  datatype HeaderError = EmptyFile | MissingScope | InvalidScope(word: string) | InvalidPhase(word: string)

  // ---------- one header line ----------

  function StartsWith(s: string, prefix: string): bool {
    prefix <= s
  }

  predicate IsWord(s: string, hyphens: bool) {
    s != "" && forall c :: c in s ==> 'a' <= c <= 'z' || (hyphens && c == '-')
  }

  function WordAfterColon(s: string, hyphens: bool): Option<string> {
    if !StartsWith(s, ":") then None
    else
      var w := Text.TrimStart(s[1..]);
      if IsWord(w, hyphens) then Some(w) else None
  }

  function WordAfterTag(s: string, tag: string, hyphens: bool): Option<string> {
    if !StartsWith(s, tag) then None else WordAfterColon(Text.TrimStart(s[|tag|..]), hyphens)
  }

  /** The word of a line `-- @tag : word`, white space being free between the parts. */
  function Header(line: string, tag: string, hyphens: bool): Option<string> {
    var t := Text.Trim(line);
    if !StartsWith(t, "--") then None else WordAfterTag(Text.TrimStart(t[2..]), tag, hyphens)
  }

  predicate BlankLine(line: string) {
    Text.Trim(line) == ""
  }

  predicate CommentLine(line: string) {
    StartsWith(Text.Trim(line), "--")
  }

  lemma ColonRoundTrip(d: string, word: string, hyphens: bool)
    requires Text.AllSpace(d) && IsWord(word, hyphens)
    ensures WordAfterColon(":" + d + word, hyphens) == Some(word)
  {
    var s := ":" + d + word;
    assert s[..1] == ":" && s[1..] == d + word;
    assert word[0] in word;
    Text.TrimStartAround(d, word);
  }

  lemma TagRoundTrip(c: string, d: string, tag: string, word: string, hyphens: bool)
    requires Text.AllSpace(c) && Text.AllSpace(d) && IsWord(word, hyphens)
    ensures WordAfterTag(tag + c + (":" + d + word), tag, hyphens) == Some(word)
  {
    var v := ":" + d + word;
    var s := tag + c + v;
    assert s[..|tag|] == tag && s[|tag|..] == c + v;
    Text.TrimStartAround(c, v);
    ColonRoundTrip(d, word, hyphens);
  }

  /** A header line is read back whatever spacing it is written with. */
  lemma HeaderRoundTrip(a: string, b: string, c: string, d: string, e: string, tag: string, word: string, hyphens: bool)
    requires Text.AllSpace(a) && Text.AllSpace(b) && Text.AllSpace(c) && Text.AllSpace(d) && Text.AllSpace(e)
    requires tag != "" && !Text.IsSpace(tag[0]) && IsWord(word, hyphens)
    ensures var line := a + ("--" + b + (tag + c + (":" + d + word))) + e;
            Header(line, tag, hyphens) == Some(word) && CommentLine(line)
  {
    var u := tag + c + (":" + d + word);
    CommentTrimmed(b, tag + c + (":" + d), word, hyphens);
    assert "--" + b + (tag + c + (":" + d) + word) == "--" + b + u;
    Text.TrimAround(a, "--" + b + u, e);
    AfterDashes(b, u);
    TagRoundTrip(c, d, tag, word, hyphens);
  }

  lemma CommentTrimmed(b: string, u: string, word: string, hyphens: bool)
    requires IsWord(word, hyphens)
    ensures Text.Trimmed("--" + b + (u + word))
  {
    var core := "--" + b + (u + word);
    assert word[|word| - 1] in word;
    assert core[0] == '-' && core[|core| - 1] == word[|word| - 1];
  }

  lemma AfterDashes(b: string, u: string)
    requires Text.AllSpace(b) && u != "" && !Text.IsSpace(u[0])
    ensures StartsWith("--" + b + u, "--") && Text.TrimStart(("--" + b + u)[2..]) == u
  {
    assert ("--" + b + u)[..2] == "--" && ("--" + b + u)[2..] == b + u;
    Text.TrimStartAround(b, u);
  }

  // ---------- scope ----------

  function ScopeNamed(word: string): Option<Scope> {
    if word == "platform" then Some(Platform)
    else if word == "runtime" then Some(Runtime)
    else if word == "data" then Some(Data)
    else None
  }

  const SCOPE_TAG := "@scope"
  const PHASE_TAG := "@phase"

  /** The scope a first non-blank line declares. */
  function ScopeOfLine(line: string): Result<Scope, HeaderError> {
    match Header(line, SCOPE_TAG, false)
    case None => Err(MissingScope)
    case Some(word) =>
      match ScopeNamed(word)
      case None => Err(InvalidScope(word))
      case Some(scope) => Ok(scope)
  }

  /** Only the first non-blank line decides. */
  method ParseScope(lines: seq<string>) returns (r: Result<Scope, HeaderError>)
    ensures r == Err(EmptyFile) <==> forall l :: l in lines ==> BlankLine(l)
    ensures r != Err(EmptyFile) ==> exists i ::
              && 0 <= i < |lines| && !BlankLine(lines[i]) && r == ScopeOfLine(lines[i])
              && forall j :: 0 <= j < i ==> BlankLine(lines[j])
    ensures r == ScopeOf(lines)
  {
    var firstNonBlank: Option<string> := None;
    for i := 0 to |lines|
      invariant firstNonBlank.None?
      invariant forall j :: 0 <= j < i ==> BlankLine(lines[j])
      invariant ScopeOf(lines) == ScopeOf(lines[i..])
    {
      assert lines[i..][1..] == lines[i + 1..];
      if !BlankLine(lines[i]) {
        return ScopeOfLine(lines[i]);
      }
    }
    r := Err(EmptyFile);
  }

  function ScopeOf(lines: seq<string>): Result<Scope, HeaderError> {
    if lines == [] then Err(EmptyFile)
    else if BlankLine(lines[0]) then ScopeOf(lines[1..])
    else ScopeOfLine(lines[0])
  }

  // ---------- phase ----------

  function PhaseNamed(word: string): Result<Phase, HeaderError> {
    if word == "pre-deploy" then Ok(PreDeploy)
    else if word == "post-deploy" then Ok(PostDeploy)
    else Err(InvalidPhase(word))
  }

  function PhaseOf(lines: seq<string>): Result<Phase, HeaderError> {
    if lines == [] then Ok(PreDeploy)
    else if BlankLine(lines[0]) then PhaseOf(lines[1..])
    else if !CommentLine(lines[0]) then Ok(PreDeploy)
    else
      match Header(lines[0], PHASE_TAG, true)
      case Some(word) => PhaseNamed(word)
      case None => PhaseOf(lines[1..])
  }

  method ParsePhase(lines: seq<string>) returns (r: Result<Phase, HeaderError>)
    ensures r == PhaseOf(lines)
  {
    for i := 0 to |lines|
      invariant PhaseOf(lines) == PhaseOf(lines[i..])
    {
      assert lines[i..][1..] == lines[i + 1..];
      if BlankLine(lines[i]) {
        continue;
      }
      if !CommentLine(lines[i]) {
        break;
      }
      var m := Header(lines[i], PHASE_TAG, true);
      if m.Some? {
        return PhaseNamed(m.value);
      }
    }
    r := Ok(PreDeploy);
  }

  predicate InHeaderBlock(lines: seq<string>) {
    forall l :: l in lines ==> BlankLine(l) || CommentLine(l)
  }

  predicate PhaseFree(lines: seq<string>) {
    forall l :: l in lines ==> BlankLine(l) || Header(l, PHASE_TAG, true).None?
  }

  /** A header line with free white space. */
  function HeaderLine(a: string, b: string, c: string, d: string, e: string, tag: string, word: string): string {
    a + ("--" + b + (tag + c + (":" + d + word))) + e
  }

  predicate Spacing(a: string, b: string, c: string, d: string, e: string) {
    Text.AllSpace(a) && Text.AllSpace(b) && Text.AllSpace(c) && Text.AllSpace(d) && Text.AllSpace(e)
  }

  /** A first line that declares the scope `word`: three words are known, any other is an error. */
  lemma DeclaredScope(a: string, b: string, c: string, d: string, e: string, word: string, rest: seq<string>)
    requires Spacing(a, b, c, d, e) && IsWord(word, false)
    ensures ScopeOf([HeaderLine(a, b, c, d, e, "@scope", word)] + rest) ==
            if word == "platform" then Ok(Platform)
            else if word == "runtime" then Ok(Runtime)
            else if word == "data" then Ok(Data)
            else Err(InvalidScope(word))
  {
    HeaderRoundTrip(a, b, c, d, e, "@scope", word, false);
    CommentIsNotBlank(HeaderLine(a, b, c, d, e, "@scope", word));
  }

  /** A comment block that declares the phase `word`, and declares none before. */
  lemma DeclaredPhase(head: seq<string>, a: string, b: string, c: string, d: string, e: string, word: string, rest: seq<string>)
    requires InHeaderBlock(head) && PhaseFree(head) && Spacing(a, b, c, d, e) && IsWord(word, true)
    ensures PhaseOf(head + [HeaderLine(a, b, c, d, e, "@phase", word)] + rest) ==
            if word == "pre-deploy" then Ok(PreDeploy)
            else if word == "post-deploy" then Ok(PostDeploy)
            else Err(InvalidPhase(word))
  {
    var line := HeaderLine(a, b, c, d, e, "@phase", word);
    HeaderRoundTrip(a, b, c, d, e, "@phase", word, true);
    CommentIsNotBlank(line);
    PhaseDecidedInHeader(head, line, rest);
  }

  /** A block without a phase line, up to the end of the file or the first statement. */
  lemma {:induction false} UndeclaredPhase(head: seq<string>, rest: seq<string>)
    requires InHeaderBlock(head) && PhaseFree(head)
    requires rest != [] ==> !BlankLine(rest[0]) && !CommentLine(rest[0])
    ensures PhaseOf(head + rest) == Ok(PreDeploy)
  {
    if head == [] {
      assert head + rest == rest;
    } else {
      assert (head + rest)[0] == head[0] && (head + rest)[1..] == head[1..] + rest;
      UndeclaredPhase(head[1..], rest);
    }
  }

  lemma CommentIsNotBlank(line: string)
    requires CommentLine(line)
    ensures !BlankLine(line)
  {
  }

  /** The phase is the one of the first phase line in the leading comment block, and nothing
      after that line, or after the block, can change it. */
  lemma {:induction false} PhaseDecidedInHeader(head: seq<string>, line: string, rest: seq<string>)
    requires InHeaderBlock(head) && PhaseFree(head) && !BlankLine(line)
    ensures PhaseOf(head + [line] + rest) ==
            if !CommentLine(line) then Ok(PreDeploy)
            else if Header(line, PHASE_TAG, true).Some? then PhaseNamed(Header(line, PHASE_TAG, true).value)
            else PhaseOf(rest)
  {
    if head == [] {
      assert head + [line] + rest == [line] + rest;
    } else {
      assert head[0] in head;
      assert (head + [line] + rest)[1..] == head[1..] + [line] + rest;
      PhaseDecidedInHeader(head[1..], line, rest);
    }
  }

  // ---------- planning ----------

  datatype Source = Source(file: string, lines: seq<string>)

  datatype Entry = Entry(file: string, scope: Scope, phase: Phase)

  datatype Plan = Plan(toApply: seq<Entry>, skipped: seq<Entry>)

  datatype PlanError = InFile(file: string, error: HeaderError)

  function EntryOf(s: Source): Result<Entry, PlanError> {
    match ScopeOf(s.lines)
    case Err(e) => Err(InFile(s.file, e))
    case Ok(scope) =>
      match PhaseOf(s.lines)
      case Err(e) => Err(InFile(s.file, e))
      case Ok(phase) => Ok(Entry(s.file, scope, phase))
  }

  /** All entries in file order, or the error of the first file whose header is bad. */
  function Entries(files: seq<Source>): Result<seq<Entry>, PlanError> {
    if files == [] then Ok([])
    else
      match Entries(files[..|files| - 1])
      case Err(e) => Err(e)
      case Ok(init) =>
        match EntryOf(files[|files| - 1])
        case Err(e) => Err(e)
        case Ok(entry) => Ok(init + [entry])
  }

  predicate Held(e: Entry, allowPostDeploy: bool) {
    e.phase.PostDeploy? && !allowPostDeploy
  }

  /** The entries a run applies, in file order. */
  function Selected(entries: seq<Entry>, allowPostDeploy: bool): seq<Entry> {
    if entries == [] then []
    else
      var init, last := Selected(entries[..|entries| - 1], allowPostDeploy), entries[|entries| - 1];
      if Held(last, allowPostDeploy) then init else init + [last]
  }

  function HeldBack(entries: seq<Entry>, allowPostDeploy: bool): seq<Entry> {
    if entries == [] then []
    else
      var init, last := HeldBack(entries[..|entries| - 1], allowPostDeploy), entries[|entries| - 1];
      if Held(last, allowPostDeploy) then init + [last] else init
  }

  method PlanMigrations(files: seq<Source>, allowPostDeploy: bool) returns (r: Result<Plan, PlanError>)
    ensures Entries(files).Err? ==> r == Err(Entries(files).error)
    ensures Entries(files).Ok? ==>
              r == Ok(Plan(Selected(Entries(files).value, allowPostDeploy), HeldBack(Entries(files).value, allowPostDeploy)))
  {
    var toApply, skipped := [], [];
    ghost var entries := [];
    for i := 0 to |files|
      invariant Entries(files[..i]) == Ok(entries)
      invariant toApply == Selected(entries, allowPostDeploy) && skipped == HeldBack(entries, allowPostDeploy)
    {
      assert files[..i + 1][..i] == files[..i];
      var scope := ParseScope(files[i].lines);
      if scope.Err? {
        FirstErrorWins(files, i + 1);
        return Err(InFile(files[i].file, scope.error));
      }
      var phase := ParsePhase(files[i].lines);
      if phase.Err? {
        FirstErrorWins(files, i + 1);
        return Err(InFile(files[i].file, phase.error));
      }
      var entry := Entry(files[i].file, scope.value, phase.value);
      SelectedSnoc(entries, entry, allowPostDeploy);
      entries := entries + [entry];
      if phase.value.PostDeploy? && !allowPostDeploy {
        skipped := skipped + [entry];
      } else {
        toApply := toApply + [entry];
      }
    }
    assert files[..|files|] == files;
    r := Ok(Plan(toApply, skipped));
  }

  lemma SelectedSnoc(entries: seq<Entry>, e: Entry, allow: bool)
    ensures Selected(entries + [e], allow) == Selected(entries, allow) + if Held(e, allow) then [] else [e]
    ensures HeldBack(entries + [e], allow) == HeldBack(entries, allow) + if Held(e, allow) then [e] else []
  {
    assert (entries + [e])[..|entries|] == entries;
  }

  lemma {:induction false} FirstErrorWins(files: seq<Source>, n: nat)
    requires n <= |files| && Entries(files[..n]).Err?
    ensures Entries(files) == Entries(files[..n])
    decreases |files|
  {
    if n == |files| {
      assert files[..n] == files;
    } else {
      assert files[..|files| - 1][..n] == files[..n];
      FirstErrorWins(files[..|files| - 1], n);
    }
  }

  /** The plan splits the files: everything is applied or held back, and exactly the post-deploy
      files of a run without the opt-in are held back. */
  lemma {:induction false} PlanPartitions(entries: seq<Entry>, allow: bool, e: Entry)
    ensures e in Selected(entries, allow) <==> e in entries && (e.phase == PreDeploy || allow)
    ensures e in HeldBack(entries, allow) <==> e in entries && e.phase == PostDeploy && !allow
    ensures |Selected(entries, allow)| + |HeldBack(entries, allow)| == |entries|
    ensures allow ==> Selected(entries, allow) == entries
  {
    if entries != [] {
      PlanPartitions(entries[..|entries| - 1], allow, e);
    }
  }

  predicate DistinctFiles(entries: seq<Entry>) {
    forall i, j :: 0 <= i < j < |entries| ==> entries[i].file != entries[j].file
  }

  /** Every file has its entry, with the scope and the phase of its headers; or the first file whose
      headers do not parse decides, its scope before its phase. */
  lemma {:induction false} EntriesMean(files: seq<Source>)
    ensures Entries(files).Ok? ==> EntriesFit(files)
    ensures Entries(files).Err? ==> exists i :: FirstBad(files, i) && Entries(files).error == ErrorOf(files[i])
  {
    if files != [] {
      var init, last := files[..|files| - 1], files[|files| - 1];
      EntriesMean(init);
      if Entries(init).Err? {
        var i :| FirstBad(init, i) && Entries(init).error == ErrorOf(init[i]);
        FirstErrorWins(files, |init|);
        BadStays(init, last, i);
      } else {
        EntriesSnoc(init, last);
      }
      assert init + [last] == files;
    }
  }

  lemma BadStays(init: seq<Source>, last: Source, i: int)
    requires FirstBad(init, i)
    ensures FirstBad(init + [last], i) && (init + [last])[i] == init[i]
  {
  }

  lemma EntriesSnoc(init: seq<Source>, last: Source)
    requires EntriesFit(init)
    ensures if Parses(last) then EntriesFit(init + [last])
            else Entries(init + [last]) == Err(ErrorOf(last)) && FirstBad(init + [last], |init|)
  {
    EntryMeans(last);
    EntriesStep(init, last);
    ParsesAll(init);
    if !Parses(last) {
      forall j | 0 <= j < |init| ensures Parses((init + [last])[j]) {
        assert Parses(init[j]);
      }
    }
  }

  lemma EntryMeans(s: Source)
    ensures EntryOf(s).Ok? <==> Parses(s)
    ensures EntryOf(s).Ok? ==> Fits(s, EntryOf(s).value)
    ensures EntryOf(s).Err? ==> EntryOf(s).error == ErrorOf(s)
  {
  }

  lemma EntriesStep(init: seq<Source>, last: Source)
    requires Entries(init).Ok?
    ensures Entries(init + [last]) ==
            if EntryOf(last).Ok? then Ok(Entries(init).value + [EntryOf(last).value]) else Err(EntryOf(last).error)
  {
    assert (init + [last])[..|init|] == init;
  }

  lemma ParsesAll(init: seq<Source>)
    requires EntriesFit(init)
    ensures forall j :: 0 <= j < |init| ==> Parses(init[j])
  {
    forall j | 0 <= j < |init| ensures Parses(init[j]) {
      assert Fits(init[j], Entries(init).value[j]);
    }
  }

  ghost predicate EntriesFit(files: seq<Source>) {
    && Entries(files).Ok?
    && |Entries(files).value| == |files|
    && forall i :: 0 <= i < |files| ==> Fits(files[i], Entries(files).value[i])
  }

  predicate Fits(s: Source, e: Entry) {
    e.file == s.file && ScopeOf(s.lines) == Ok(e.scope) && PhaseOf(s.lines) == Ok(e.phase)
  }

  predicate Parses(s: Source) {
    ScopeOf(s.lines).Ok? && PhaseOf(s.lines).Ok?
  }

  predicate FirstBad(files: seq<Source>, i: int) {
    0 <= i < |files| && !Parses(files[i]) && forall j :: 0 <= j < i ==> Parses(files[j])
  }

  function ErrorOf(s: Source): PlanError
    requires !Parses(s)
  {
    match ScopeOf(s.lines)
    case Err(e) => InFile(s.file, e)
    case Ok(_) => InFile(s.file, PhaseOf(s.lines).error)
  }

  /** A run reaches a file only after every earlier file of the same phase. */
  lemma {:induction false} EarlierOfPhaseFirst(entries: seq<Entry>, allow: bool, n: nat, i: nat, j: nat)
    requires DistinctFiles(entries)
    requires n < |Selected(entries, allow)| && i < j < |entries|
    requires Selected(entries, allow)[n] == entries[j] && entries[i].phase == entries[j].phase
    ensures entries[i] in Selected(entries, allow)[..n]
  {
    var init, last := entries[..|entries| - 1], entries[|entries| - 1];
    var plan := Selected(init, allow);
    if n < |plan| {
      assert Selected(entries, allow)[..n] == plan[..n];
      PlanPartitions(init, allow, plan[n]);
      assert plan[n] in init;
      assert j < |init|;
      EarlierOfPhaseFirst(init, allow, n, i, j);
    } else {
      assert last == entries[j];
      PlanPartitions(init, allow, entries[i]);
      assert init[i] == entries[i] && init[i] in init;
      assert Selected(entries, allow)[..n] == plan;
    }
  }
}
