/** Watching one streamed answer: what reaches the terminal when text arrives in pieces and is
    then replaced by a snapshot, what JSON mode collects, and how the watch is summed up
    (`streamAsk` in `packages/cli/src/commands/office.ts`). */
module OfficeStream {
  import opened Wrappers

  datatype Body =
    | Started(conversation: string, turn: string)
    | Activity
    | TextDelta(text: string)
    | Message(text: string)
    | ApprovalRequired(decision: string)
    | DecisionResolved
    | Completed(conversation: string, turn: string)
    | Failed(error: string)
    | Blocked(error: string)
    | Interrupted(error: string)

  datatype Event = Event(sequence: nat, body: Body)

  datatype State = RunningState | AwaitingApproval | CompletedState | FailedState | BlockedState | InterruptedState

  /** How the event iterator ends: it is exhausted, or it throws the client's stream error, which
      carries the place to resume from, or it throws anything else. */
  datatype Ending = Exhausted | StreamBroke(error: string, conversation: string, turn: string, lastSequence: nat) | Threw(error: string)

  datatype Failure = Reported(error: string) | LimitExceeded | Broke(error: string)

  datatype Track = Track(
    state: State, conversation: Option<string>, turn: Option<string>, lastSequence: nat, decision: Option<string>)

  datatype Summary = Summary(track: Track, events: seq<Event>, error: Option<Failure>)

  const MAX_EVENTS: nat := 10000
  const MAX_BYTES: nat := 8 * 1024 * 1024

  // ---------- what the events say ----------

  predicate StartsWith(s: string, p: string) {
    |p| <= |s| && s[..|p|] == p
  }

  predicate EndsWith(s: string, p: string) {
    |p| <= |s| && s[|s| - |p|..] == p
  }

  /** The answer so far: pieces append, a snapshot replaces everything. */
  function Accumulated(events: seq<Event>): string {
    if events == [] then ""
    else
      var before, last := Accumulated(events[..|events| - 1]), events[|events| - 1].body;
      if last.Message? then last.text
      else if last.TextDelta? then before + last.text
      else before
  }

  predicate Replaced(events: seq<Event>) {
    exists i :: 0 <= i < |events| && events[i].body.Message?
  }

  /** The pieces before the first snapshot, which are shown as they come. */
  function Streamed(events: seq<Event>): string {
    if events == [] then ""
    else
      var init, last := events[..|events| - 1], events[|events| - 1].body;
      Streamed(init) + if last.TextDelta? && !Replaced(init) then last.text else ""
  }

  /** What is on the terminal once a pending snapshot has been merged with what was shown. */
  function Merged(shown: string, answer: string): string {
    if EndsWith(shown, answer) then shown
    else if StartsWith(answer, shown) then answer
    else shown + "\n" + answer
  }

  function Shown(events: seq<Event>): string {
    if Replaced(events) then Merged(Streamed(events), Accumulated(events)) else Streamed(events)
  }

  /** The latest event that has something to say decides. */
  function Latest<T>(events: seq<Event>, f: Body -> Option<T>): Option<T> {
    if events == [] then None
    else if f(events[|events| - 1].body).Some? then f(events[|events| - 1].body)
    else Latest(events[..|events| - 1], f)
  }

  function StateIn(b: Body): Option<State> {
    match b
    case ApprovalRequired(_) => Some(AwaitingApproval)
    case DecisionResolved => Some(CompletedState)
    case Completed(_, _) => Some(CompletedState)
    case Failed(_) => Some(FailedState)
    case Blocked(_) => Some(BlockedState)
    case Interrupted(_) => Some(InterruptedState)
    case _ => None
  }

  function ErrorIn(b: Body): Option<string> {
    if b.Failed? || b.Blocked? || b.Interrupted? then Some(b.error) else None
  }

  function DecisionIn(b: Body): Option<string> {
    if b.ApprovalRequired? then Some(b.decision) else None
  }

  function ConversationIn(b: Body): Option<string> {
    if b.Started? || b.Completed? then Some(b.conversation) else None
  }

  function TurnIn(b: Body): Option<string> {
    if b.Started? || b.Completed? then Some(b.turn) else None
  }

  function Or<T>(x: Option<T>, y: Option<T>): Option<T> {
    if x.Some? then x else y
  }

  // ---------- the terminal ----------

  /** The variables `printed` and `replacement` with the closures that write them. */
  class Terminal {
    var printed: string
    var replacement: Option<string>

    constructor ()
      ensures printed == "" && replacement == None
    {
      printed, replacement := "", None;
    }

    ghost predicate Follows(events: seq<Event>)
      reads this
    {
      && printed == Streamed(events)
      && replacement == if Replaced(events) then Some(Accumulated(events)) else None
    }

    method WriteText(text: string)
      modifies this`printed
      ensures printed == old(printed) + text
    {
      printed := printed + text;
    }

    method FlushReplacement()
      modifies this
      ensures replacement == None
      ensures printed == if old(replacement).Some? then Merged(old(printed), old(replacement).value) else old(printed)
      ensures StartsWith(printed, old(printed))
    {
      if replacement.Some? && !EndsWith(printed, replacement.value) {
        if StartsWith(replacement.value, printed) {
          WriteText(replacement.value[|printed|..]);
        } else {
          WriteText((if printed != "" then "\n" else "") + replacement.value);
        }
      }
      replacement := None;
    }

    /** The end of the watch: a line break only when the stream was read to its end. */
    method Close(ghost events: seq<Event>, exhausted: bool)
      requires Follows(events)
      modifies this
      ensures replacement == None && printed == Shown(events) + if exhausted then "\n" else ""
    {
      FlushReplacement();
      if exhausted {
        WriteText("\n");
      }
    }

    method Show(events: seq<Event>, n: nat)
      requires n < |events| && Follows(events[..n])
      modifies this
      ensures Follows(events[..n + 1])
      ensures StartsWith(printed, old(printed))
    {
      var body := events[n].body;
      OneMoreEvent(events[..n], events[n]);
      assert events[..n + 1] == events[..n] + [events[n]];
      if body.Message? {
        replacement := Some(body.text);
      } else if body.TextDelta? {
        if replacement.Some? {
          replacement := Some(replacement.value + body.text);
        } else {
          WriteText(body.text);
        }
      }
    }
  }

  lemma OneMoreEvent(events: seq<Event>, e: Event)
    ensures Replaced(events + [e]) == (Replaced(events) || e.body.Message?)
    ensures Streamed(events + [e]) == Streamed(events) + if e.body.TextDelta? && !Replaced(events) then e.body.text else ""
    ensures Accumulated(events + [e]) ==
            if e.body.Message? then e.body.text
            else if e.body.TextDelta? then Accumulated(events) + e.body.text
            else Accumulated(events)
  {
    var all := events + [e];
    assert all[..|events|] == events && all[|events|] == e;
    if Replaced(events) {
      var i :| 0 <= i < |events| && events[i].body.Message?;
      assert all[i].body.Message?;
    }
  }

  /** Until a snapshot arrives the terminal holds exactly the answer. */
  lemma {:induction false} StreamedIsTheAnswer(events: seq<Event>)
    requires !Replaced(events)
    ensures Streamed(events) == Accumulated(events)
  {
    if events != [] {
      var init, last := events[..|events| - 1], events[|events| - 1];
      assert events == init + [last];
      OneMoreEvent(init, last);
      StreamedIsTheAnswer(init);
    }
  }

  /** Text already shown is never taken back. */
  lemma {:induction false} ShownOnlyGrows(events: seq<Event>, n: nat)
    requires n <= |events|
    ensures StartsWith(Streamed(events), Streamed(events[..n]))
    ensures StartsWith(Shown(events), Streamed(events[..n]))
    decreases |events|
  {
    if n < |events| {
      var init := events[..|events| - 1];
      assert init[..n] == events[..n];
      ShownOnlyGrows(init, n);
    } else {
      assert events[..n] == events;
    }
  }

  /** The terminal ends with the whole answer. It holds the answer and nothing else exactly when
      the answer extends what was shown before the first snapshot, and in every other case the
      text shown before is still there, in front of it. */
  lemma {:induction false} ShownEndsWithTheAnswer(events: seq<Event>)
    ensures EndsWith(Shown(events), Accumulated(events))
    ensures Shown(events) == Accumulated(events) <==> StartsWith(Accumulated(events), Streamed(events))
    ensures Shown(events) == Streamed(events) <==> EndsWith(Streamed(events), Accumulated(events))
  {
    if !Replaced(events) {
      StreamedIsTheAnswer(events);
    } else {
      MergedMeans(Streamed(events), Accumulated(events));
    }
  }

  lemma MergedMeans(shown: string, answer: string)
    ensures EndsWith(Merged(shown, answer), answer) && StartsWith(Merged(shown, answer), shown)
    ensures Merged(shown, answer) == answer <==> StartsWith(answer, shown)
    ensures Merged(shown, answer) == shown <==> EndsWith(shown, answer)
    ensures !StartsWith(answer, shown) && !EndsWith(shown, answer) ==> Merged(shown, answer) == shown + "\n" + answer
  {
  }

  function DeltaText(events: seq<Event>): string {
    if events == [] then ""
    else DeltaText(events[..|events| - 1]) + if events[|events| - 1].body.TextDelta? then events[|events| - 1].body.text else ""
  }

  /** The answer is the last snapshot followed by the pieces after it, or all pieces without one. */
  lemma AccumulatedMeans(before: seq<Event>, e: Event, after: seq<Event>)
    requires !Replaced(after)
    ensures Accumulated(after) == DeltaText(after)
    ensures e.body.Message? ==> Accumulated(before + [e] + after) == e.body.text + DeltaText(after)
  {
    DeltasAlone(after);
    if e.body.Message? {
      AfterSnapshot(before, e, after);
    }
  }

  lemma {:induction false} DeltasAlone(after: seq<Event>)
    requires !Replaced(after)
    ensures Accumulated(after) == DeltaText(after)
  {
    if after != [] {
      var init, last := after[..|after| - 1], after[|after| - 1];
      assert after == init + [last];
      OneMoreEvent(init, last);
      DeltasAlone(init);
    }
  }

  lemma {:induction false} AfterSnapshot(before: seq<Event>, e: Event, after: seq<Event>)
    requires !Replaced(after) && e.body.Message?
    ensures Accumulated(before + [e] + after) == e.body.text + DeltaText(after)
  {
    if after == [] {
      OneMoreEvent(before, e);
      assert before + [e] + after == before + [e];
    } else {
      var init, last := after[..|after| - 1], after[|after| - 1];
      assert after == init + [last];
      OneMoreEvent(init, last);
      AfterSnapshot(before, e, init);
      OneMoreEvent(before + [e] + init, last);
      assert before + [e] + after == (before + [e] + init) + [last];
    }
  }

  // ---------- JSON mode ----------

  function Bytes(events: seq<Event>, size: Event -> nat): nat {
    if events == [] then 0 else Bytes(events[..|events| - 1], size) + size(events[|events| - 1])
  }

  predicate Fits(events: seq<Event>, size: Event -> nat) {
    |events| <= MAX_EVENTS && Bytes(events, size) <= MAX_BYTES
  }

  /** A longer list never fits when a shorter one does not. */
  lemma {:induction false} FitsIsMonotone(events: seq<Event>, n: nat, size: Event -> nat)
    requires n <= |events|
    ensures Bytes(events[..n], size) <= Bytes(events, size)
    ensures Fits(events, size) ==> Fits(events[..n], size)
    decreases |events|
  {
    if n < |events| {
      assert events[..|events| - 1][..n] == events[..n];
      FitsIsMonotone(events[..|events| - 1], n, size);
    } else {
      assert events[..n] == events;
    }
  }

  /** The events that were looked at: in JSON mode the one that broke a limit is the last. */
  ghost predicate Looked(events: seq<Event>, seen: nat, collected: nat, json: bool, size: Event -> nat) {
    if !json then seen == |events| && collected == 0
    else
      && collected <= seen <= |events|
      && Fits(events[..collected], size)
      && (collected == seen ==> seen == |events|)
      && (collected < seen ==> seen == collected + 1 && !Fits(events[..seen], size))
  }

  function Start(conversation: Option<string>, turn: Option<string>, after: nat): Track {
    Track(RunningState, conversation, turn, after, None)
  }

  /** The assignments at the top of the loop. */
  function Observed(t: Track, e: Event): Track {
    var u := t.(lastSequence := e.sequence);
    match e.body
    case Started(c, n) => u.(conversation := Some(c), turn := Some(n))
    case Completed(c, n) => u.(conversation := Some(c), turn := Some(n), state := CompletedState)
    case ApprovalRequired(d) => u.(state := AwaitingApproval, decision := Some(d))
    case DecisionResolved => u.(state := CompletedState)
    case Failed(_) => u.(state := FailedState)
    case Blocked(_) => u.(state := BlockedState)
    case Interrupted(_) => u.(state := InterruptedState)
    case _ => u
  }

  /** The variables of the loop after the events it has looked at. */
  function Tracked(start: Track, looked: seq<Event>): Track {
    if looked == [] then start else Observed(Tracked(start, looked[..|looked| - 1]), looked[|looked| - 1])
  }

  /** The summary when the iterator is done: the latest reported failure if it was exhausted,
      otherwise what it threw, with the place to resume from if that is known. */
  function Concluded(t: Track, events: seq<Event>, failure: Option<string>, ending: Ending): Summary {
    match ending
    case Exhausted => Summary(t, events, if failure.Some? then Some(Reported(failure.value)) else None)
    case StreamBroke(error, c, n, at) => Summary(t.(conversation := Some(c), turn := Some(n), lastSequence := at), events, Some(Broke(error)))
    case Threw(error) => Summary(t, events, Some(Broke(error)))
  }

  /** One watch. `terminal` is what the user sees in text mode. */
  method StreamAsk(events: seq<Event>, ending: Ending, json: bool, size: Event -> nat,
                   conversation: Option<string>, turn: Option<string>, after: nat, terminal: Terminal)
    returns (s: Summary, ghost seen: nat)
    requires terminal.printed == "" && terminal.replacement == None
    modifies terminal
    ensures Looked(events, seen, |s.events|, json, size) && s.events == events[..|s.events|]
    ensures var told := Tracked(Start(conversation, turn, after), events[..seen]);
            s == if json && |s.events| < seen then Summary(told, s.events, Some(LimitExceeded))
                 else Concluded(told, s.events, Latest(events, ErrorIn), ending)
    ensures terminal.replacement == None
    ensures terminal.printed == if json then "" else Shown(events) + if ending.Exhausted? then "\n" else ""
  {
    var track := Start(conversation, turn, after);
    var failure: Option<string> := None;
    var collected: seq<Event> := [];
    var bytes := 0;
    for i := 0 to |events|
      invariant track == Tracked(Start(conversation, turn, after), events[..i]) && failure == Latest(events[..i], ErrorIn)
      invariant json ==> collected == events[..i] && bytes == Bytes(events[..i], size) && Fits(events[..i], size)
      invariant json ==> terminal.printed == "" && terminal.replacement == None
      invariant !json ==> collected == [] && terminal.Follows(events[..i])
    {
      var event := events[i];
      LookedAtOneMore(Start(conversation, turn, after), events, i, size);
      track := Observed(track, event);
      if ErrorIn(event.body).Some? {
        failure := ErrorIn(event.body);
      }
      if json {
        bytes := bytes + size(event);
        if |collected| >= MAX_EVENTS || bytes > MAX_BYTES {
          return Summary(track, collected, Some(LimitExceeded)), i + 1;
        }
        collected := collected + [event];
      } else {
        terminal.Show(events, i);
      }
    }
    assert events[..|events|] == events;
    if !json {
      terminal.Close(events, ending.Exhausted?);
    }
    seen := |events|;
    s := Concluded(track, collected, failure, ending);
  }

  lemma LookedAtOneMore(start: Track, events: seq<Event>, i: nat, size: Event -> nat)
    requires i < |events|
    ensures Tracked(start, events[..i + 1]) == Observed(Tracked(start, events[..i]), events[i])
    ensures Latest(events[..i + 1], ErrorIn) == Or(ErrorIn(events[i].body), Latest(events[..i], ErrorIn))
    ensures Bytes(events[..i + 1], size) == Bytes(events[..i], size) + size(events[i])
    ensures events[..i + 1] == events[..i] + [events[i]]
  {
    assert events[..i + 1][..i] == events[..i];
  }

  /** Each variable holds what the latest event with something to say about it said. */
  lemma {:induction false} TrackedIsLatest(looked: seq<Event>, conversation: Option<string>, turn: Option<string>, after: nat)
    ensures var s := Tracked(Start(conversation, turn, after), looked);
            && s.state == Or(Latest(looked, StateIn), Some(RunningState)).value
            && s.decision == Latest(looked, DecisionIn)
            && s.conversation == Or(Latest(looked, ConversationIn), conversation)
            && s.turn == Or(Latest(looked, TurnIn), turn)
            && s.lastSequence == if looked == [] then after else looked[|looked| - 1].sequence
  {
    if looked != [] {
      TrackedIsLatest(looked[..|looked| - 1], conversation, turn, after);
    }
  }

  // ---------- the exit status ----------

  /** `emit`: any error, or a state that means failure, is a non-zero status. */
  function ExitCode(s: Summary): nat {
    if s.error.Some? then (if s.error.value.LimitExceeded? || s.error.value.error != "invalid_request" then 1 else 2)
    else if s.track.state in {FailedState, BlockedState, InterruptedState} then 1
    else 0
  }

  /** Status two is for a request the service calls invalid, one for every other failure, a bad final
      state included. */
  lemma ExitCodeMeans(s: Summary)
    ensures ExitCode(s) == 2 <==> s.error == Some(Reported("invalid_request")) || s.error == Some(Broke("invalid_request"))
    ensures ExitCode(s) == 0 <==> s.error.None? && !s.track.state.FailedState? && !s.track.state.BlockedState? && !s.track.state.InterruptedState?
    ensures ExitCode(s) <= 2
  {
  }

  lemma {:induction false} BadStateHasError(events: seq<Event>)
    requires Latest(events, StateIn) in {Some(FailedState), Some(BlockedState), Some(InterruptedState)}
    ensures Latest(events, ErrorIn).Some?
  {
    if StateIn(events[|events| - 1].body).None? {
      BadStateHasError(events[..|events| - 1]);
    }
  }

  lemma {:induction false} NoErrorReported(events: seq<Event>)
    ensures Latest(events, ErrorIn).None? <==> forall i :: 0 <= i < |events| ==> ErrorIn(events[i].body).None?
  {
    if events != [] {
      var n := |events| - 1;
      NoErrorReported(events[..n]);
      assert forall i :: 0 <= i < n ==> events[..n][i] == events[i];
    }
  }

  /** When the stream was read to its end, success is reported exactly when no event ever carried
      an error; a failure followed by `completed` is still a failure. */
  lemma SuccessMeans(events: seq<Event>, conversation: Option<string>, turn: Option<string>, after: nat)
    ensures var s := Concluded(Tracked(Start(conversation, turn, after), events), [], Latest(events, ErrorIn), Exhausted);
            ExitCode(s) == 0 <==>
            forall i :: 0 <= i < |events| ==> !events[i].body.Failed? && !events[i].body.Blocked? && !events[i].body.Interrupted?
  {
    TrackedIsLatest(events, conversation, turn, after);
    NoErrorReported(events);
    if Latest(events, StateIn) in {Some(FailedState), Some(BlockedState), Some(InterruptedState)} {
      BadStateHasError(events);
    }
  }

  /** A stream that fits is collected whole; one that does not is cut at the first event over a
      limit, and the reported position is that of the event that was refused. */
  lemma CollectedWhole(events: seq<Event>, seen: nat, collected: nat, size: Event -> nat)
    requires Looked(events, seen, collected, true, size)
    ensures collected <= 10_000 && Bytes(events[..collected], size) <= 8_388_608
    ensures collected == |events| <==> |events| <= 10_000 && Bytes(events, size) <= 8_388_608
    ensures collected == |events| <==> Fits(events, size)
    ensures forall k :: collected < k <= |events| ==> !Fits(events[..k], size)
  {
    assert events[..|events|] == events;
    forall k | collected < k <= |events| ensures !Fits(events[..k], size) {
      assert events[..k][..seen] == events[..seen];
      FitsIsMonotone(events[..k], seen, size);
    }
  }

  /** However the stream ends, the state, the decision and the events are those that were looked at;
      a stream error says where to resume, and nothing but it changes the position. */
  lemma EndingDecides(t: Track, events: seq<Event>, failure: Option<string>, ending: Ending)
    ensures var s := Concluded(t, events, failure, ending);
            && s.events == events && s.track.state == t.state && s.track.decision == t.decision
            && (match ending
                case StreamBroke(error, conversation, turn, last) =>
                  && s.track.conversation == Some(conversation) && s.track.turn == Some(turn) && s.track.lastSequence == last
                  && s.error == Some(Broke(error))
                case Threw(error) => s.track == t && s.error == Some(Broke(error))
                case Exhausted => s.track == t && (s.error.None? <==> failure.None?) && (failure.Some? ==> s.error == Some(Reported(failure.value))))
  {
  }

  // ---------- resuming after a limit ----------

  predicate Increasing(events: seq<Event>, after: nat) {
    && (forall i :: 0 <= i < |events| ==> events[i].sequence > after)
    && forall i, j :: 0 <= i < j < |events| ==> events[i].sequence < events[j].sequence
  }

  /** In JSON mode the reported position is that of the last event that was collected, so that
      resuming after it continues where the collection ends, exactly when everything fitted. */
  lemma ResumeContinuesIff(events: seq<Event>, seen: nat, collected: nat, size: Event -> nat,
                           conversation: Option<string>, turn: Option<string>, after: nat)
    requires Increasing(events, after) && Looked(events, seen, collected, true, size)
    ensures Tracked(Start(conversation, turn, after), events[..seen]).lastSequence ==
              (if collected == 0 then after else events[collected - 1].sequence)
            <==> Fits(events, size)
  {
    TrackedIsLatest(events[..seen], conversation, turn, after);
    CollectedWhole(events, seen, collected, size);
  }

  /** One event over the byte limit: nothing is collected, and the reported position skips it. */
  lemma RefusedEventIsSkipped(event: Event, size: Event -> nat)
    requires size(event) > MAX_BYTES
    ensures Looked([event], 1, 0, true, size)
    ensures Tracked(Start(None, None, 0), [event][..1]).lastSequence == event.sequence
  {
    assert [event][..1] == [event] && [event][..0] == [];
    assert Bytes([event], size) == Bytes([], size) + size(event);
  }
}
