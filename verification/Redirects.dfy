/** The `_redirects` compiler that runs when a frontend is deployed. */
module Redirects {
  import opened Wrappers
  import Text

  datatype Rule = Rule(from: string, to: string, status: int)

  const VALID_STATUSES: set<int> := {200, 301, 302, 303, 307, 308}
  const DEFAULT_STATUS := 301

  datatype Reason =
    | TooFewTokens(count: nat)
    | MatcherToken(token: string)
    | InvalidStatus(token: string)
    | RelativeFrom(from: string)
    | NamedPlaceholder(from: string)

  datatype Warning = Warning(line: nat, reason: Reason)

  datatype Parsed = Blank | Accepted(rule: Rule) | Skipped(reason: Reason)

  // ---------- lines and tokens ----------

  function DropReturn(line: string): string {
    if line != "" && line[|line| - 1] == '\r' then line[..|line| - 1] else line
  }

  /** Splits at `\n`, and at a `\r` directly before it. */
  function Lines(text: string): seq<string> {
    DropReturns(Text.Split(text, '\n'))
  }

  function DropReturns(pieces: seq<string>): seq<string> {
    if |pieces| <= 1 then pieces else [DropReturn(pieces[0])] + DropReturns(pieces[1..])
  }

  predicate IsTerminator(c: char) {
    c == '\n' || c == '\r' || c == '\U{2028}' || c == '\U{2029}'
  }

  predicate OneLine(s: string) {
    forall c :: c in s ==> !IsTerminator(c)
  }

  /** Cuts the line at the first `#` from which no line terminator follows. */
  function StripComment(raw: string): string {
    if raw == "" then ""
    else if raw[0] == '#' && OneLine(raw[1..]) then ""
    else [raw[0]] + StripComment(raw[1..])
  }

  function WordLength(s: string): (n: nat)
    ensures n <= |s|
    ensures Text.NoSpace(s[..n])
    ensures s != "" && !Text.IsSpace(s[0]) ==> n > 0
    ensures n < |s| ==> Text.IsSpace(s[n])
  {
    if s == "" || Text.IsSpace(s[0]) then 0
    else
      var n := 1 + WordLength(s[1..]);
      assert s[..n] == [s[0]] + s[1..][..n - 1];
      n
  }

  /** The maximal runs without white space; on trimmed text this is what splitting at white space gives. */
  function Words(s: string): seq<string>
    decreases |s|
  {
    if s == "" then []
    else if Text.IsSpace(s[0]) then Words(s[1..])
    else [s[..WordLength(s)]] + Words(s[WordLength(s)..])
  }

  // ---------- numbers ----------

  predicate IsDigit(c: char) {
    '0' <= c <= '9'
  }

  function DigitPrefix(s: string, value: nat): nat {
    if s != "" && IsDigit(s[0]) then DigitPrefix(s[1..], value * 10 + (s[0] as int - '0' as int)) else value
  }

  /** `parseInt` with radix 10: an optional sign and the digits that follow; None is NaN. */
  function ParseInt(token: string): Option<int> {
    var s := Text.TrimStart(token);
    var digits := if s != "" && (s[0] == '+' || s[0] == '-') then s[1..] else s;
    if digits == "" || !IsDigit(digits[0]) then None
    else
      var n: int := DigitPrefix(digits, 0);
      Some(if s[0] == '-' then -n else n)
  }

  // ---------- one line ----------

  predicate EndsWithSplat(s: string) {
    |s| >= 2 && s[|s| - 2] == '/' && s[|s| - 1] == '*'
  }

  function CheckFrom(from: string, to: string, status: int): Parsed {
    if from == "" || from[0] != '/' then Skipped(RelativeFrom(from))
    else if ':' in from && !EndsWithSplat(from) then Skipped(NamedPlaceholder(from))
    else Accepted(Rule(from, to, status))
  }

  function ParseTokens(tokens: seq<string>): Parsed {
    if |tokens| < 2 then Skipped(TooFewTokens(|tokens|))
    else if |tokens| == 2 then CheckFrom(tokens[0], tokens[1], DEFAULT_STATUS)
    else if '=' in tokens[2] then Skipped(MatcherToken(tokens[2]))
    else
      match ParseInt(tokens[2])
      case None => Skipped(InvalidStatus(tokens[2]))
      case Some(status) =>
        if status !in VALID_STATUSES then Skipped(InvalidStatus(tokens[2]))
        else CheckFrom(tokens[0], tokens[1], status)
  }

  function ParseLine(raw: string): Parsed {
    var line := Text.Trim(StripComment(raw));
    if line == "" then Blank else ParseTokens(Words(line))
  }

  predicate IsStatus(n: int) {
    n == 200 || n == 301 || n == 302 || n == 303 || n == 307 || n == 308
  }

  /** When the words of a line make a rule, and which: two words or a third that starts with one of
      the six statuses, a first word with a leading slash, and no colon in it unless it ends in a splat. */
  lemma AcceptedIff(tokens: seq<string>, rule: Rule)
    ensures ParseTokens(tokens) == Accepted(rule) <==>
            && |tokens| >= 2 && rule.from == tokens[0] && rule.to == tokens[1]
            && (if |tokens| == 2 then rule.status == 301
                else '=' !in tokens[2] && ParseInt(tokens[2]) == Some(rule.status) && IsStatus(rule.status))
            && rule.from != "" && rule.from[0] == '/'
            && (':' !in rule.from || (|rule.from| >= 2 && rule.from[|rule.from| - 2] == '/' && rule.from[|rule.from| - 1] == '*'))
  {
  }

  /** The reason of a warning is the first of the five checks that fails. */
  lemma SkippedBecause(tokens: seq<string>)
    requires ParseTokens(tokens).Skipped?
    ensures match ParseTokens(tokens).reason
            case TooFewTokens(count) => count == |tokens| < 2
            case MatcherToken(token) => |tokens| > 2 && token == tokens[2] && '=' in token
            case InvalidStatus(token) =>
              |tokens| > 2 && token == tokens[2] && '=' !in token && (ParseInt(token).None? || !IsStatus(ParseInt(token).value))
            case RelativeFrom(from) => |tokens| >= 2 && from == tokens[0] && (from == "" || from[0] != '/')
            case NamedPlaceholder(from) => |tokens| >= 2 && from == tokens[0] && ':' in from && from[0] == '/'
  {
  }

  predicate AllDigits(s: string) {
    forall i :: 0 <= i < |s| ==> '0' <= s[i] <= '9'
  }

  /** The number that decimal digits spell after `value`. */
  function DecimalOf(s: string, value: nat): nat
    requires AllDigits(s)
  {
    if s == "" then value else DecimalOf(s[1..], value * 10 + (s[0] as int - '0' as int))
  }

  lemma {:induction false} DigitsRead(s: string, rest: string, value: nat)
    requires AllDigits(s) && (rest == "" || !('0' <= rest[0] <= '9'))
    ensures DigitPrefix(s + rest, value) == DecimalOf(s, value)
  {
    if s == "" {
      assert s + rest == rest;
    } else {
      assert (s + rest)[1..] == s[1..] + rest;
      DigitsRead(s[1..], rest, value * 10 + (s[0] as int - '0' as int));
    }
  }

  /** A number is read from its sign and its digits, whatever follows them, and nothing is read where
      none starts. */
  lemma ParseIntMeans(s: string, rest: string)
    requires s != "" && AllDigits(s) && (rest == "" || !('0' <= rest[0] <= '9'))
    ensures var n: int := DecimalOf(s, 0);
            && ParseInt(s + rest) == Some(n)
            && ParseInt("-" + (s + rest)) == Some(-n)
            && ParseInt("+" + (s + rest)) == Some(n)
  {
    assert (s + rest)[0] == s[0];
    assert ("-" + (s + rest))[1..] == s + rest && ("+" + (s + rest))[1..] == s + rest;
    DigitsRead(s, rest, 0);
  }

  lemma NotANumber(token: string)
    requires token == "" || (!Text.IsSpace(token[0]) && !('0' <= token[0] <= '9') && token[0] != '-' && token[0] != '+')
    ensures ParseInt(token).None?
  {
  }

  // ---------- the whole file ----------

  function Gathered<T>(lines: seq<string>, f: string -> seq<T>): seq<T> {
    if lines == [] then [] else Gathered(lines[..|lines| - 1], f) + f(lines[|lines| - 1])
  }

  function RulesOf(lines: seq<string>): seq<Rule> {
    Gathered(lines, LineRules)
  }

  function LineRules(line: string): seq<Rule> {
    match ParseLine(line)
    case Accepted(rule) => [rule]
    case _ => []
  }

  function WarningsOf(lines: seq<string>): seq<Warning> {
    if lines == [] then []
    else
      var init, p := WarningsOf(lines[..|lines| - 1]), ParseLine(lines[|lines| - 1]);
      if p.Skipped? then init + [Warning(|lines|, p.reason)] else init
  }

  /** The loop body: what one line contributes. */
  method ClassifyLine(raw: string) returns (p: Parsed)
    ensures p == ParseLine(raw)
  {
    var line := Text.Trim(StripComment(raw));
    if line == "" {
      return Blank;
    }
    var tokens := Words(line);
    if |tokens| < 2 {
      return Skipped(TooFewTokens(|tokens|));
    }
    var from, to, status := tokens[0], tokens[1], DEFAULT_STATUS;
    if |tokens| > 2 {
      if '=' in tokens[2] {
        return Skipped(MatcherToken(tokens[2]));
      }
      var parsed := ParseInt(tokens[2]);
      if parsed.None? || parsed.value !in VALID_STATUSES {
        return Skipped(InvalidStatus(tokens[2]));
      }
      status := parsed.value;
    }
    if from == "" || from[0] != '/' {
      return Skipped(RelativeFrom(from));
    }
    if ':' in from && !EndsWithSplat(from) {
      return Skipped(NamedPlaceholder(from));
    }
    p := Accepted(Rule(from, to, status));
  }

  method ParseRedirects(text: string) returns (rules: seq<Rule>, warnings: seq<Warning>)
    ensures rules == RulesOf(Lines(text)) && warnings == WarningsOf(Lines(text))
  {
    rules, warnings := [], [];
    var lines := Lines(text);
    for i := 0 to |lines|
      invariant rules == RulesOf(lines[..i]) && warnings == WarningsOf(lines[..i])
    {
      assert lines[..i + 1][..i] == lines[..i];
      var p := ClassifyLine(lines[i]);
      if p.Accepted? {
        rules := rules + [p.rule];
      } else if p.Skipped? {
        warnings := warnings + [Warning(i + 1, p.reason)];
      }
    }
    assert lines[..|lines|] == lines;
  }

  /** Every line accounts for at most one rule or one warning, never both: the two lists
      together are as long as the lines that are not blank. */
  lemma {:induction false} OneOutcomePerLine(lines: seq<string>)
    ensures |RulesOf(lines)| + |WarningsOf(lines)| == |NonBlank(lines)|
  {
    if lines != [] {
      OneOutcomePerLine(lines[..|lines| - 1]);
    }
  }

  /** A warning names exactly a line that was skipped, with the reason. */
  lemma {:induction false} WarningsNameSkippedLines(lines: seq<string>, n: nat, reason: Reason)
    ensures Warning(n, reason) in WarningsOf(lines) <==> 1 <= n <= |lines| && ParseLine(lines[n - 1]) == Skipped(reason)
  {
    if lines != [] {
      WarningsNameSkippedLines(lines[..|lines| - 1], n, reason);
    }
  }

  function NonBlank(lines: seq<string>): seq<string> {
    if lines == [] then []
    else
      var init, last := NonBlank(lines[..|lines| - 1]), lines[|lines| - 1];
      if ParseLine(last).Blank? then init else init + [last]
  }

  // ---------- printing ----------

  /** A rule that a line `from to status` can spell. */
  predicate WellFormed(r: Rule) {
    && Spelled(r.from) && Spelled(r.to)
    && r.from[0] == '/'
    && (':' in r.from ==> EndsWithSplat(r.from))
    && r.status in VALID_STATUSES
  }

  predicate Spelled(s: string) {
    s != "" && Text.NoSpace(s) && '#' !in s
  }

  function StatusText(status: int): string {
    if status == 200 then "200" else if status == 301 then "301" else if status == 302 then "302"
    else if status == 303 then "303" else if status == 307 then "307" else "308"
  }

  /** White space that does not end a line. */
  predicate Inline(s: string) {
    Text.AllSpace(s) && OneLine(s)
  }

  /** One line of a file: a rule or nothing, with free spacing and an optional comment. */
  datatype Item = Item(rule: Option<Rule>, lead: string, gap1: string, gap2: string, trail: string, comment: Option<string>)

  predicate Printable(it: Item) {
    && (it.rule.Some? ==> WellFormed(it.rule.value))
    && Inline(it.lead) && Inline(it.gap1) && Inline(it.gap2) && Inline(it.trail)
    && it.gap1 != "" && it.gap2 != ""
    && (it.comment.Some? ==> OneLine(it.comment.value))
  }

  function Core(it: Item): string
    requires Printable(it)
  {
    match it.rule
    case None => ""
    case Some(r) => r.from + it.gap1 + r.to + it.gap2 + StatusText(r.status)
  }

  function Print(it: Item): string
    requires Printable(it)
  {
    (it.lead + Core(it) + it.trail) + CommentText(it.comment)
  }

  function CommentText(comment: Option<string>): string {
    match comment case None => "" case Some(c) => "#" + c
  }

  /** A file: terminated lines (with or without a carriage return) and a last line without terminator. */
  datatype Doc = Last(item: Item) | Line(item: Item, crlf: bool, rest: Doc)

  predicate PrintableDoc(d: Doc) {
    Printable(d.item) && (d.Line? ==> PrintableDoc(d.rest))
  }

  function PrintDoc(d: Doc): string
    requires PrintableDoc(d)
  {
    match d
    case Last(item) => Print(item)
    case Line(item, crlf, rest) => Print(item) + (if crlf then "\r\n" else "\n") + PrintDoc(rest)
  }

  function DocRules(d: Doc): seq<Rule> {
    var here := if d.item.rule.Some? then [d.item.rule.value] else [];
    match d
    case Last(_) => here
    case Line(_, _, rest) => here + DocRules(rest)
  }

  // ---------- round trip ----------

  lemma {:induction false} WordLengthOf(w: string, rest: string)
    requires Text.NoSpace(w) && (rest == "" || Text.IsSpace(rest[0]))
    ensures WordLength(w + rest) == |w|
  {
    if w == "" {
      assert w + rest == rest;
    } else {
      assert (w + rest)[1..] == w[1..] + rest;
      assert w[0] in w;
      WordLengthOf(w[1..], rest);
    }
  }

  lemma {:induction false} WordsSkipSpace(a: string, s: string)
    requires Text.AllSpace(a)
    ensures Words(a + s) == Words(s)
  {
    if a == "" {
      assert a + s == s;
    } else {
      assert a[0] in a;
      assert (a + s)[1..] == a[1..] + s;
      WordsSkipSpace(a[1..], s);
    }
  }

  lemma WordsCons(w: string, gap: string, s: string)
    requires w != "" && Text.NoSpace(w) && Text.AllSpace(gap) && (gap == "" ==> s == "")
    ensures Words(w + gap + s) == [w] + Words(s)
  {
    assert w[0] in w;
    if gap != "" { assert gap[0] in gap; }
    assert w + gap + s == w + (gap + s);
    WordLengthOf(w, gap + s);
    WordsSkipSpace(gap, s);
    var t := w + gap + s;
    assert t[..|w|] == w && t[|w|..] == gap + s;
  }

  lemma StatusTextParses(status: int)
    requires status in VALID_STATUSES
    ensures ParseInt(StatusText(status)) == Some(status)
    ensures Spelled(StatusText(status)) && '=' !in StatusText(status)
  {
    var s := StatusText(status);
    assert s[1..][1..] == s[2..] && s[1..][1..][1..] == "";
    assert DigitPrefix(s[1..][1..][1..], status) == status;
    assert DigitPrefix(s[1..][1..], status / 10) == status;
    assert DigitPrefix(s[1..], status / 100) == status;
  }

  lemma CoreWords(it: Item)
    requires Printable(it) && it.rule.Some?
    ensures Words(Core(it)) == [it.rule.value.from, it.rule.value.to, StatusText(it.rule.value.status)]
    ensures Core(it) != "" && Text.Trimmed(Core(it))
  {
    var r := it.rule.value;
    var st := StatusText(r.status);
    StatusTextParses(r.status);
    assert Core(it) == r.from + it.gap1 + (r.to + it.gap2 + st);
    WordsCons(r.from, it.gap1, r.to + it.gap2 + st);
    WordsCons(r.to, it.gap2, st);
    assert st == st + "" + "";
    WordsCons(st, "", "");
    assert Core(it)[0] == r.from[0] && r.from[0] in r.from;
    assert Core(it)[|Core(it)| - 1] == st[|st| - 1] && st[|st| - 1] in st;
  }

  lemma {:induction false} StripCommentAfter(a: string, c: string)
    requires '#' !in a && OneLine(c)
    ensures StripComment(a) == a && StripComment(a + "#" + c) == a
  {
    if a == "" {
      assert a + "#" + c == "#" + c;
      assert ("#" + c)[1..] == c;
    } else {
      assert (a + "#" + c)[1..] == a[1..] + "#" + c;
      assert a[0] in a;
      StripCommentAfter(a[1..], c);
    }
  }

  lemma NoHash(it: Item)
    requires Printable(it)
    ensures '#' !in it.lead + Core(it) + it.trail
  {
    assert !Text.IsSpace('#');
    if it.rule.Some? {
      StatusTextParses(it.rule.value.status);
    }
  }

  lemma PrintedStripped(it: Item)
    requires Printable(it)
    ensures StripComment(Print(it)) == it.lead + Core(it) + it.trail
  {
    NoHash(it);
    CommentStripped(it.lead + Core(it) + it.trail, it.comment);
  }

  lemma CommentStripped(body: string, comment: Option<string>)
    requires '#' !in body && (comment.Some? ==> OneLine(comment.value))
    ensures StripComment(body + CommentText(comment)) == body
  {
    if comment.Some? {
      StripCommentAfter(body, comment.value);
      assert body + CommentText(comment) == body + "#" + comment.value;
    } else {
      StripCommentAfter(body, "");
      assert body + CommentText(comment) == body;
    }
  }

  lemma PrintedLineParses(it: Item)
    requires Printable(it)
    ensures ParseLine(Print(it)) == if it.rule.Some? then Accepted(it.rule.value) else Blank
  {
    PrintedStripped(it);
    if it.rule.Some? {
      CoreWords(it);
      StatusTextParses(it.rule.value.status);
    }
    Text.TrimAround(it.lead, Core(it), it.trail);
  }

  lemma PrintIsOneLine(it: Item)
    requires Printable(it)
    ensures OneLine(Print(it))
  {
    assert forall c :: IsTerminator(c) ==> Text.IsSpace(c);
    if it.rule.Some? {
      StatusTextParses(it.rule.value.status);
    }
  }

  lemma GatheredSnoc<T>(lines: seq<string>, line: string, f: string -> seq<T>)
    ensures Gathered(lines + [line], f) == Gathered(lines, f) + f(line)
  {
    assert (lines + [line])[..|lines|] == lines;
  }

  lemma {:induction false} GatheredCons<T>(line: string, lines: seq<string>, f: string -> seq<T>)
    ensures Gathered([line] + lines, f) == f(line) + Gathered(lines, f)
  {
    if lines == [] {
      GatheredSnoc([], line, f);
      assert [line] + lines == [] + [line];
    } else {
      var init, last := lines[..|lines| - 1], lines[|lines| - 1];
      GatheredCons(line, init, f);
      assert [line] + lines == ([line] + init) + [last] && lines == init + [last];
      GatheredSnoc([line] + init, last, f);
      GatheredSnoc(init, last, f);
      assert (f(line) + Gathered(init, f)) + f(last) == f(line) + (Gathered(init, f) + f(last));
    }
  }

  predicate NoSkips(lines: seq<string>) {
    forall l :: l in lines ==> !ParseLine(l).Skipped?
  }

  lemma PrintedFirst(it: Item, lines: seq<string>)
    requires Printable(it)
    ensures RulesOf([Print(it)] + lines) == (if it.rule.Some? then [it.rule.value] else []) + RulesOf(lines)
    ensures NoSkips(lines) ==> NoSkips([Print(it)] + lines)
  {
    PrintedLineParses(it);
    GatheredCons(Print(it), lines, LineRules);
  }

  lemma {:induction false} NoWarnings(lines: seq<string>)
    requires NoSkips(lines)
    ensures WarningsOf(lines) == []
  {
    if lines != [] {
      NoWarnings(lines[..|lines| - 1]);
    }
  }

  lemma LinesCons(line: string, crlf: bool, rest: string)
    requires OneLine(line)
    ensures Lines(line + (if crlf then "\r\n" else "\n") + rest) == [line] + Lines(rest)
  {
    var text := line + (if crlf then "\r\n" else "\n") + rest;
    var piece := if crlf then line + "\r" else line;
    assert text == piece + ['\n'] + rest;
    Text.SplitHead(piece, rest, '\n');
    if !crlf && line != "" {
      assert line[|line| - 1] in line;
    }
    assert DropReturn(piece) == line;
    var tail := Text.Split(rest, '\n');
    assert ([piece] + tail)[1..] == tail;
  }

  lemma LinesOne(line: string)
    requires OneLine(line)
    ensures Lines(line) == [line]
  {
    Text.SplitOne(line, '\n');
  }

  /** Printing well-formed rules one per line, with comments, blank lines and either line ending
      anywhere, and parsing the text gives back the same rules in order, without warnings. */
  lemma {:induction false} PrintParseRoundTrip(d: Doc)
    requires PrintableDoc(d)
    ensures RulesOf(Lines(PrintDoc(d))) == DocRules(d)
    ensures WarningsOf(Lines(PrintDoc(d))) == []
    ensures NoSkips(Lines(PrintDoc(d)))
  {
    var line := Print(d.item);
    PrintIsOneLine(d.item);
    match d {
      case Last(_) =>
        LinesOne(line);
        assert [line] + [] == [line];
        PrintedFirst(d.item, []);
      case Line(_, crlf, rest) =>
        PrintParseRoundTrip(rest);
        LinesCons(line, crlf, PrintDoc(rest));
        PrintedFirst(d.item, Lines(PrintDoc(rest)));
    }
    NoWarnings(Lines(PrintDoc(d)));
  }

  // ---------- what the parser emits ----------

  lemma {:induction false} WordsSpelled(s: string)
    ensures forall w :: w in Words(s) ==> w != "" && Text.NoSpace(w) && forall c :: c in w ==> c in s
    decreases |s|
  {
    if s != "" {
      if Text.IsSpace(s[0]) {
        WordsSpelled(s[1..]);
      } else {
        WordsSpelled(s[WordLength(s)..]);
      }
    }
  }

  lemma {:induction false} StripCommentNoHash(raw: string)
    requires OneLine(raw)
    ensures '#' !in StripComment(raw)
  {
    if raw != "" {
      assert forall c :: c in raw[1..] ==> c in raw;
      StripCommentNoHash(raw[1..]);
    }
  }

  lemma TrimmedWords(s: string)
    ensures forall w :: w in Words(Text.Trim(s)) ==> w != "" && Text.NoSpace(w) && forall c :: c in w ==> c in s
  {
    var a, b := Text.TrimSplits(s);
    assert forall c :: c in Text.Trim(s) ==> c in s;
    WordsSpelled(Text.Trim(s));
  }

  lemma AcceptedTokens(tokens: seq<string>)
    requires ParseTokens(tokens).Accepted?
    ensures |tokens| >= 2
    ensures var r := ParseTokens(tokens).rule;
            && r.from == tokens[0] && r.to == tokens[1] && r.status in VALID_STATUSES
            && r.from != "" && r.from[0] == '/' && (':' in r.from ==> EndsWithSplat(r.from))
  {
  }

  predicate HashFree(r: Rule) {
    '#' !in r.from && '#' !in r.to
  }

  /** A rule that was accepted from a line is well formed exactly when no `#` got into it, which
      only a line with a stray line terminator can bring about. */
  lemma AcceptedIsWellFormed(raw: string)
    requires ParseLine(raw).Accepted?
    ensures WellFormed(ParseLine(raw).rule) <==> HashFree(ParseLine(raw).rule)
    ensures Text.NoSpace(ParseLine(raw).rule.from) && Text.NoSpace(ParseLine(raw).rule.to)
    ensures OneLine(raw) ==> HashFree(ParseLine(raw).rule)
  {
    var stripped := StripComment(raw);
    TrimmedWords(stripped);
    var tokens := Words(Text.Trim(stripped));
    AcceptedTokens(tokens);
    assert tokens[0] in tokens && tokens[1] in tokens;
    if OneLine(raw) {
      StripCommentNoHash(raw);
    }
  }

  /** Some `#` has a line terminator after it. */
  predicate StrayHash(raw: string) {
    exists i, j :: 0 <= i < j < |raw| && raw[i] == '#' && EndsLine(raw[j])
  }

  /** What `.` does not match. */
  predicate EndsLine(c: char) {
    c == 10 as char || c == 13 as char || c == '\U{2028}' || c == '\U{2029}'
  }

  lemma LineEnds(s: string)
    ensures OneLine(s) <==> forall j :: 0 <= j < |s| ==> !EndsLine(s[j])
  {
    forall c | c in s && IsTerminator(c) ensures exists j :: 0 <= j < |s| && EndsLine(s[j]) {
      var j :| 0 <= j < |s| && s[j] == c;
      assert EndsLine(s[j]);
    }
    assert forall j :: 0 <= j < |s| && EndsLine(s[j]) ==> s[j] in s && IsTerminator(s[j]);
  }

  lemma StrayHashCons(c: char, rest: string)
    ensures StrayHash([c] + rest) <==> (c == '#' && !OneLine(rest)) || StrayHash(rest)
    ensures StrayHash(rest) ==> !OneLine(rest)
  {
    LineEnds(rest);
    StrayBefore(c, rest);
    StrayAfter(c, rest);
  }

  lemma StrayBefore(c: char, rest: string)
    ensures StrayHash(rest) || (c == '#' && exists j :: 0 <= j < |rest| && EndsLine(rest[j])) ==> StrayHash([c] + rest)
  {
    var raw := [c] + rest;
    if StrayHash(rest) {
      var i, j :| 0 <= i < j < |rest| && rest[i] == '#' && EndsLine(rest[j]);
      assert raw[i + 1] == '#' && EndsLine(raw[j + 1]);
    } else if c == '#' && exists j :: 0 <= j < |rest| && EndsLine(rest[j]) {
      var j :| 0 <= j < |rest| && EndsLine(rest[j]);
      assert raw[0] == '#' && EndsLine(raw[j + 1]);
    }
  }

  lemma StrayAfter(c: char, rest: string)
    ensures StrayHash([c] + rest) ==> StrayHash(rest) || (c == '#' && exists j :: 0 <= j < |rest| && EndsLine(rest[j]))
  {
    var raw := [c] + rest;
    if StrayHash(raw) {
      var i, j :| 0 <= i < j < |raw| && raw[i] == '#' && EndsLine(raw[j]);
      assert EndsLine(rest[j - 1]);
      if i > 0 {
        assert rest[i - 1] == '#' && EndsLine(rest[j - 1]);
      }
    }
  }

  /** Stripping leaves a `#` behind exactly when a line terminator follows one. */
  lemma {:induction false} StrayTerminatorKeepsHash(raw: string)
    ensures '#' in StripComment(raw) <==> StrayHash(raw)
  {
    if raw != "" {
      assert raw == [raw[0]] + raw[1..];
      StrayHashCons(raw[0], raw[1..]);
      StrayTerminatorKeepsHash(raw[1..]);
    }
  }

  function PlainItem(r: Rule): Item {
    Item(Some(r), "", " ", " ", "", None)
  }

  function PlainDoc(rules: seq<Rule>): Doc {
    if rules == [] then Last(Item(None, "", " ", " ", "", None))
    else Line(PlainItem(rules[0]), false, PlainDoc(rules[1..]))
  }

  lemma {:induction false} PlainDocRules(rules: seq<Rule>)
    requires forall r :: r in rules ==> WellFormed(r)
    ensures PrintableDoc(PlainDoc(rules)) && DocRules(PlainDoc(rules)) == rules
  {
    if rules != [] {
      PlainDocRules(rules[1..]);
    }
  }

  predicate HashFreeRules(rules: seq<Rule>) {
    forall r :: r in rules ==> HashFree(r)
  }

  /** One line `from to status` a rule. */
  function Reprint(rules: seq<Rule>): string {
    if rules == [] then ""
    else RuleLine(rules[0]) + "\n" + Reprint(rules[1..])
  }

  function RuleLine(r: Rule): string {
    r.from + " " + r.to + " " + StatusText(r.status)
  }

  predicate Unspaced(r: Rule) {
    Text.NoSpace(r.from) && Text.NoSpace(r.to) && r.status in VALID_STATUSES
  }

  lemma RuleLineIsOneLine(r: Rule)
    requires Unspaced(r)
    ensures OneLine(RuleLine(r))
  {
    assert forall c :: IsTerminator(c) ==> Text.IsSpace(c);
    StatusTextParses(r.status);
  }

  lemma {:induction false} ReprintIsOneLineEach(rules: seq<Rule>)
    requires forall r :: r in rules ==> Unspaced(r)
    ensures forall l :: l in Lines(Reprint(rules)) ==> OneLine(l)
  {
    if rules == [] {
      LinesOne("");
    } else {
      ReprintIsOneLineEach(rules[1..]);
      RuleLineIsOneLine(rules[0]);
      LinesCons(RuleLine(rules[0]), false, Reprint(rules[1..]));
    }
  }

  lemma {:induction false} ReprintIsPrint(rules: seq<Rule>)
    requires forall r :: r in rules ==> WellFormed(r)
    ensures PrintableDoc(PlainDoc(rules)) && Reprint(rules) == PrintDoc(PlainDoc(rules))
  {
    PlainDocRules(rules);
    if rules != [] {
      ReprintIsPrint(rules[1..]);
      PlainItemPrints(rules[0]);
    }
  }

  lemma PlainItemPrints(r: Rule)
    requires WellFormed(r)
    ensures Printable(PlainItem(r)) && Print(PlainItem(r)) == RuleLine(r)
  {
    var it := PlainItem(r);
    assert Core(it) == RuleLine(r);
    assert Print(it) == (it.lead + Core(it) + it.trail) + "";
  }

  lemma {:induction false} EmittedUnspaced(lines: seq<string>)
    ensures forall r :: r in RulesOf(lines) ==> Unspaced(r) && (WellFormed(r) <==> HashFree(r))
    ensures (forall l :: l in lines ==> OneLine(l)) ==> HashFreeRules(RulesOf(lines))
  {
    if lines != [] {
      var init, last := lines[..|lines| - 1], lines[|lines| - 1];
      assert lines == init + [last];
      EmittedUnspaced(init);
      if ParseLine(last).Accepted? {
        AcceptedIsWellFormed(last);
        EmittedShape([last]);
        assert RulesOf([last]) == RulesOf([]) + LineRules(last);
      }
    }
  }

  /** Printing what a text parsed to, one rule a line, and parsing again gives the same rules and
      no warnings if and only if no emitted rule holds a `#`. */
  lemma ParsePrintParse(text: string)
    ensures var rules := RulesOf(Lines(text));
            RulesOf(Lines(Reprint(rules))) == rules && WarningsOf(Lines(Reprint(rules))) == [] <==> HashFreeRules(rules)
  {
    var rules := RulesOf(Lines(text));
    EmittedUnspaced(Lines(text));
    if HashFreeRules(rules) {
      ReprintIsPrint(rules);
      PlainDocRules(rules);
      PrintParseRoundTrip(PlainDoc(rules));
    } else {
      ReprintIsOneLineEach(rules);
      EmittedUnspaced(Lines(Reprint(rules)));
    }
  }

  /** In particular parsing is a retraction on every text without stray line terminators. */
  lemma CleanTextReprints(text: string)
    requires forall l :: l in Lines(text) ==> OneLine(l)
    ensures HashFreeRules(RulesOf(Lines(text)))
  {
    EmittedUnspaced(Lines(text));
  }

  lemma {:induction false} SingleHashStays(a: string, b: string)
    requires '#' !in a && '#' !in b && !OneLine(b)
    ensures StripComment(a + "#" + b) == a + "#" + b
  {
    if a == "" {
      assert a + "#" + b == "#" + b;
      assert ("#" + b)[1..] == b;
      StripCommentAfter(b, "");
    } else {
      assert (a + "#" + b)[1..] == a[1..] + "#" + b;
      SingleHashStays(a[1..], b);
    }
  }

  lemma TwoWords(v: string, w: string)
    requires v != "" && w != "" && Text.NoSpace(v) && Text.NoSpace(w)
    ensures Words(v + " " + w) == [v, w] && Text.Trimmed(v + " " + w)
  {
    WordsCons(v, " ", w);
    OneWord(w);
    TrimmedEnds(v, " ", w);
  }

  lemma TrimmedEnds(v: string, gap: string, w: string)
    requires v != "" && w != "" && Text.NoSpace(v) && Text.NoSpace(w)
    ensures Text.Trimmed(v + gap + w)
  {
    var s := v + gap + w;
    assert s[0] == v[0] && v[0] in v && s[|s| - 1] == w[|w| - 1] && w[|w| - 1] in w;
  }

  lemma OneWord(w: string)
    requires w != "" && Text.NoSpace(w)
    ensures Words(w) == [w] && Text.Trimmed(w)
  {
    assert w == w + "" + "";
    WordsCons(w, "", "");
    assert w[0] in w && w[|w| - 1] in w;
  }

  lemma HashStripped(from: string, to: string)
    requires Spelled(from) && Spelled(to)
    ensures Text.Trim(StripComment(from + "#" + (" " + to + "\r"))) == (from + "#") + " " + to
  {
    var after, line := " " + to + "\r", (from + "#") + " " + to;
    assert after[|after| - 1] == '\r' && IsTerminator('\r');
    SingleHashStays(from, after);
    assert from + "#" + after == "" + line + "\r";
    TwoWords(from + "#", to);
    Text.TrimAround("", line, "\r");
  }

  lemma BareRule(from: string, to: string)
    requires from != "" && from[0] == '/' && ':' !in from
    ensures ParseTokens([from, to]) == Accepted(Rule(from, to, 301))
  {
  }

  lemma HashIsRead(from: string, to: string)
    requires Spelled(from) && Spelled(to) && from[0] == '/' && ':' !in from
    ensures ParseLine(from + "#" + (" " + to + "\r")) == Accepted(Rule(from + "#", to, 301))
  {
    HashStripped(from, to);
    TwoWords(from + "#", to);
    BareRule(from + "#", to);
  }

  lemma HashIsLost(from: string, rest: string)
    requires Spelled(from) && OneLine(rest)
    ensures ParseLine(from + "#" + rest) == Skipped(TooFewTokens(1))
  {
    StripCommentAfter(from, rest);
    OneWord(from);
    Text.TrimmedId(from);
  }

  lemma OneAccepted(line: string, rule: Rule)
    requires ParseLine(line) == Accepted(rule) && '\n' !in line
    ensures RulesOf(Lines(line)) == [rule]
  {
    Text.SplitOne(line, '\n');
    GatheredSnoc([], line, LineRules);
    assert [] + [line] == [line];
  }

  lemma OneSkipped(line: string, reason: Reason)
    requires ParseLine(line) == Skipped(reason)
    ensures RulesOf([line]) == [] && WarningsOf([line]) == [Warning(1, reason)]
  {
    GatheredSnoc([], line, LineRules);
    assert [] + [line] == [line] && [line][..0] == [];
  }

  lemma BlankAtEnd(lines: seq<string>)
    ensures RulesOf(lines + [""]) == RulesOf(lines) && WarningsOf(lines + [""]) == WarningsOf(lines)
  {
    GatheredSnoc(lines, "", LineRules);
    BlankLine();
    assert (lines + [""])[..|lines|] == lines;
  }

  lemma BlankLine()
    ensures ParseLine("") == Blank && LineRules("") == []
  {
  }

  lemma ReprintedLine(rule: Rule)
    requires OneLine(RuleLine(rule))
    ensures Lines(Reprint([rule])) == [RuleLine(rule)] + [""]
  {
    assert [rule][1..] == [] && Reprint([]) == "";
    LinesCons(RuleLine(rule), false, "");
    LinesOne("");
  }

  /** A carriage return at the very end of a text is not part of a line end: the comment before it
      stays, becomes part of a rule, and is lost when that rule is printed and read again. */
  lemma HashRuleIsLost(from: string, to: string)
    requires Spelled(from) && Spelled(to) && from[0] == '/' && ':' !in from
    ensures var rule := Rule(from + "#", to, 301);
            && RulesOf(Lines(from + "#" + (" " + to + "\r"))) == [rule]
            && RulesOf(Lines(Reprint([rule]))) == [] && WarningsOf(Lines(Reprint([rule]))) == [Warning(1, TooFewTokens(1))]
  {
    HashIsRead(from, to);
    assert Text.IsSpace('\n');
    OneAccepted(from + "#" + (" " + to + "\r"), Rule(from + "#", to, 301));
    ReprintLosesHash(from, to);
  }

  lemma ReprintLosesHash(from: string, to: string)
    requires Spelled(from) && Spelled(to)
    ensures var lines := Lines(Reprint([Rule(from + "#", to, 301)]));
            RulesOf(lines) == [] && WarningsOf(lines) == [Warning(1, TooFewTokens(1))]
  {
    var rule, rest := Rule(from + "#", to, 301), " " + to + " " + StatusText(301);
    RuleLineIsOneLine(rule);
    ReprintedLine(rule);
    assert RuleLine(rule) == from + "#" + rest;
    forall c | c in rest ensures !IsTerminator(c) {
      assert c in RuleLine(rule);
    }
    HashIsLost(from, rest);
    OneSkipped(RuleLine(rule), TooFewTokens(1));
    BlankAtEnd([RuleLine(rule)]);
  }

  /** Whatever the text, an emitted rule starts with a slash and carries a supported status. */
  lemma {:induction false} EmittedShape(lines: seq<string>)
    ensures forall r :: r in RulesOf(lines) ==> r.from != "" && r.from[0] == '/' && r.status in VALID_STATUSES
  {
    if lines != [] {
      EmittedShape(lines[..|lines| - 1]);
    }
  }
}
