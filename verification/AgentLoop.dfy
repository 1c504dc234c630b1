/** The support agent: one loop's conversation with the model and its tools, and the persistent
    budget that overlapping loops share. */
module AgentLoop {
  import opened Wrappers

  const MAX_INPUT_TOKENS := 150_000
  const MAX_OUTPUT_TOKENS := 15_000
  const MAX_LLM_CALLS := 25

  datatype Budget = Budget(input: nat, output: nat, calls: nat)

  predicate Exceeded(b: Budget) {
    b.input >= MAX_INPUT_TOKENS || b.output >= MAX_OUTPUT_TOKENS || b.calls >= MAX_LLM_CALLS
  }

  function Charged(b: Budget, input: nat, output: nat): Budget {
    Budget(b.input + input, b.output + output, b.calls + 1)
  }

  /** The stored budget; nothing is stored before the first charge. */
  class BudgetStore {
    var stored: Option<Budget>

    function Current(): Budget
      reads this
    {
      if stored.Some? then stored.value else Budget(0, 0, 0)
    }

    constructor ()
      ensures Current() == Budget(0, 0, 0)
    {
      stored := None;
    }

    method AddBudget(input: nat, output: nat) returns (b: Budget)
      modifies this
      ensures b == Current() == Charged(old(Current()), input, output)
      ensures b.input == old(Current()).input + input && b.output == old(Current()).output + output && b.calls == old(Current()).calls + 1
    {
      b := Current();
      b := b.(input := b.input + input, output := b.output + output, calls := b.calls + 1);
      stored := Some(b);
    }
  }

  // ---------- the transcript of one loop ----------

  datatype Tool =
    | SearchDocs | ProposeDiagnosis | ProposeDraftReply | ProposeEscalation
    | RequestFollowup | ProposeAction | ReadSubstrate | UnknownTool(name: string)

  predicate Terminal(t: Tool) {
    t.ProposeDraftReply? || t.ProposeEscalation? || t.RequestFollowup?
  }

  datatype ToolCall = ToolCall(id: string, tool: Tool, arguments: string)

  datatype Message =
    | System(content: string)
    | User(content: string)
    | Assistant(content: string, calls: seq<ToolCall>)
    | ToolAnswer(callId: string, content: string)

  datatype ModelAnswer = CallFailed(reason: string) | NoChoice | Choice(content: string, calls: seq<ToolCall>)

  datatype ToolOutcome = Returned(result: string) | Threw(reason: string)

  /** Everything outside the loop: the stored budget as each iteration finds it (other loops may
      have charged it), the model's answer to each request, and the tools. */
  datatype World = World(
    budget: nat -> Budget,
    model: (nat, seq<Message>) -> ModelAnswer,
    tool: (nat, ToolCall) -> ToolOutcome)

  datatype Ending = Finished | IterationsSpent | BudgetExhausted | ModelFailed(reason: string) | NoChoiceReturned

  /** The answers to one assistant message: exactly one per call, in order, with matching ids. */
  predicate Answers(calls: seq<ToolCall>, ms: seq<Message>) {
    |ms| == |calls| && forall i :: 0 <= i < |calls| ==> ms[i].ToolAnswer? && ms[i].callId == calls[i].id
  }

  /** One block of a transcript: an assistant message and the answers to its calls. */
  datatype Turn = Turn(content: string, calls: seq<ToolCall>, answers: seq<Message>)

  /** The assistant asked for at least one call, and all its calls are answered. */
  predicate Complete(t: Turn) {
    t.calls != [] && Answers(t.calls, t.answers)
  }

  function Flatten(turns: seq<Turn>): seq<Message> {
    if turns == [] then []
    else
      var t := turns[|turns| - 1];
      Flatten(turns[..|turns| - 1]) + [Assistant(t.content, t.calls)] + t.answers
  }

  predicate Shows(ms: seq<Message>, turns: seq<Turn>) {
    && |ms| >= 2 && ms[0].System? && ms[1].User?
    && ms[2..] == Flatten(turns)
    && forall t :: t in turns ==> Complete(t)
  }

  /** A conversation the model may be asked to continue: system, user, then complete turns. */
  ghost predicate Continuable(ms: seq<Message>) {
    exists turns :: Shows(ms, turns)
  }

  /** A conversation that ended: complete blocks, the last of which may be an assistant message
      without any call. */
  ghost predicate WellFormed(ms: seq<Message>) {
    || Continuable(ms)
    || (|ms| > 2 && Continuable(ms[..|ms| - 1]) && ms[|ms| - 1].Assistant? && ms[|ms| - 1].calls == [])
  }

  lemma TurnAppended(ms: seq<Message>, content: string, calls: seq<ToolCall>, answers: seq<Message>)
    requires Continuable(ms) && calls != [] && Answers(calls, answers)
    ensures Continuable(ms + [Assistant(content, calls)] + answers)
  {
    var turns :| Shows(ms, turns);
    var more := turns + [Turn(content, calls, answers)];
    assert more[..|turns|] == turns;
    assert (ms + [Assistant(content, calls)] + answers)[2..] == ms[2..] + [Assistant(content, calls)] + answers;
    assert Shows(ms + [Assistant(content, calls)] + answers, more);
  }

  /** The answer of one tool call: its result, or the failure as a result. */
  function AnswerTo(c: ToolCall, o: ToolOutcome): Message {
    ToolAnswer(c.id, match o case Returned(result) => result case Threw(reason) => "error: " + reason)
  }

  predicate Stops(c: ToolCall, o: ToolOutcome) {
    Terminal(c.tool) && o.Returned?
  }

  function TurnAnswers(w: World, turn: nat, calls: seq<ToolCall>): seq<Message> {
    seq(|calls|, i requires 0 <= i < |calls| => AnswerTo(calls[i], w.tool(turn, calls[i])))
  }

  /** Whatever the tools do, failing included, each call of a turn gets exactly one answer, with what
      the tool returned or the reason why it failed. */
  lemma EveryCallAnswered(w: World, turn: nat, calls: seq<ToolCall>)
    ensures Answers(calls, TurnAnswers(w, turn, calls))
    ensures forall i :: 0 <= i < |calls| ==>
              match w.tool(turn, calls[i])
              case Returned(result) => TurnAnswers(w, turn, calls)[i] == ToolAnswer(calls[i].id, result)
              case Threw(reason) => TurnAnswers(w, turn, calls)[i] == ToolAnswer(calls[i].id, "error: " + reason)
  {
    forall i | 0 <= i < |calls|
      ensures TurnAnswers(w, turn, calls)[i].ToolAnswer? && TurnAnswers(w, turn, calls)[i].callId == calls[i].id
    {
      assert TurnAnswers(w, turn, calls)[i] == AnswerTo(calls[i], w.tool(turn, calls[i]));
    }
  }

  predicate TurnStops(w: World, turn: nat, calls: seq<ToolCall>) {
    exists i :: 0 <= i < |calls| && Stops(calls[i], w.tool(turn, calls[i]))
  }

  /** The final transcript, the conversation of every model call, and how it ended. */
  datatype Conversation = Conversation(messages: seq<Message>, requests: seq<seq<Message>>, ending: Ending)

  /** The conversation from iteration `iter` on. */
  function Converse(w: World, ms: seq<Message>, iter: nat): Conversation
    decreases MAX_LLM_CALLS - iter
  {
    if iter >= MAX_LLM_CALLS then Conversation(ms, [], IterationsSpent)
    else if Exceeded(w.budget(iter)) then Conversation(ms, [], BudgetExhausted)
    else
      match w.model(iter, ms)
      case CallFailed(reason) => Conversation(ms, [ms], ModelFailed(reason))
      case NoChoice => Conversation(ms, [ms], NoChoiceReturned)
      case Choice(content, calls) =>
        var asked := ms + [Assistant(content, calls)];
        if calls == [] then Conversation(asked, [ms], Finished)
        else
          var next := asked + TurnAnswers(w, iter, calls);
          if TurnStops(w, iter, calls) then Conversation(next, [ms], Finished)
          else Asked([ms], Converse(w, next, iter + 1))
  }

  function Asked(requests: seq<seq<Message>>, c: Conversation): Conversation {
    c.(requests := requests + c.requests)
  }

  /** Carries out one assistant message's calls, all of them even after a terminal one. */
  method RunTools(w: World, turn: nat, calls: seq<ToolCall>) returns (answers: seq<Message>, done: bool)
    ensures answers == TurnAnswers(w, turn, calls)
    ensures done <==> TurnStops(w, turn, calls)
  {
    answers, done := [], false;
    for i := 0 to |calls|
      invariant answers == TurnAnswers(w, turn, calls[..i])
      invariant done <==> TurnStops(w, turn, calls[..i])
    {
      TurnSnoc(w, turn, calls[..i], calls[i]);
      assert calls[..i + 1] == calls[..i] + [calls[i]];
      var answer, terminates := RunTool(w, turn, calls[i]);
      answers := answers + [answer];
      if terminates {
        done := true;
      }
    }
    assert calls[..|calls|] == calls;
  }

  lemma TurnSnoc(w: World, turn: nat, calls: seq<ToolCall>, c: ToolCall)
    ensures TurnAnswers(w, turn, calls + [c]) == TurnAnswers(w, turn, calls) + [AnswerTo(c, w.tool(turn, c))]
    ensures TurnStops(w, turn, calls + [c]) <==> TurnStops(w, turn, calls) || Stops(c, w.tool(turn, c))
  {
    var all := calls + [c];
    assert all[|calls|] == c;
    assert forall i :: 0 <= i < |calls| ==> all[i] == calls[i];
  }

  method RunTool(w: World, turn: nat, tc: ToolCall) returns (answer: Message, terminates: bool)
    ensures answer == AnswerTo(tc, w.tool(turn, tc)) && terminates == Stops(tc, w.tool(turn, tc))
  {
    terminates := false;
    var outcome := w.tool(turn, tc);
    var result: string;
    match outcome {
      case Returned(value) =>
        result := value;
        terminates := Terminal(tc.tool);
      case Threw(reason) =>
        result := "error: " + reason;
    }
    answer := ToolAnswer(tc.id, result);
  }

  method RunAgentLoop(w: World, system: string, user: string)
    returns (messages: seq<Message>, requests: seq<seq<Message>>, ending: Ending)
    ensures Conversation(messages, requests, ending) == Converse(w, [System(system), User(user)], 0)
  {
    messages := [System(system), User(user)];
    requests := [];
    var done := false;
    var iter := 0;
    ghost var whole := Converse(w, messages, 0);
    while !done && iter < MAX_LLM_CALLS
      invariant iter <= MAX_LLM_CALLS
      invariant whole == if done then Conversation(messages, requests, Finished)
                         else Asked(requests, Converse(w, messages, iter))
      decreases !done, MAX_LLM_CALLS - iter
    {
      var budget := w.budget(iter);
      if Exceeded(budget) {
        return messages, requests, BudgetExhausted;
      }
      var answer := w.model(iter, messages);
      ghost var before := requests;
      requests := requests + [messages];
      match answer {
        case CallFailed(reason) =>
          return messages, requests, ModelFailed(reason);
        case NoChoice =>
          return messages, requests, NoChoiceReturned;
        case Choice(content, calls) =>
          ghost var request := messages;
          messages := messages + [Assistant(content, calls)];
          if calls == [] {
            return messages, requests, Finished;
          }
          var answers, terminated := RunTools(w, iter, calls);
          messages := messages + answers;
          done := terminated;
          iter := iter + 1;
          AskedTwice(before, request, Converse(w, messages, iter));
      }
    }
    ending := if done then Finished else IterationsSpent;
  }

  /** A turn that goes on: the request, what the model asked for, and what the tools answered, none
      of the returned calls being one of the three that end a run. */
  ghost predicate Continues(w: World, turn: nat, request: seq<Message>, next: seq<Message>) {
    && w.model(turn, request).Choice? && w.model(turn, request).calls != []
    && var calls := w.model(turn, request).calls;
    && next == request + [Assistant(w.model(turn, request).content, calls)] + TurnAnswers(w, turn, calls)
    && forall i :: 0 <= i < |calls| && w.tool(turn, calls[i]).Returned? ==> !EndsRun(calls[i].tool)
  }

  predicate EndsRun(t: Tool) {
    t == ProposeDraftReply || t == ProposeEscalation || t == RequestFollowup
  }

  /** The transcript and the ending, from the last request and the model's answer to it. */
  ghost predicate EndsAs(w: World, turn: nat, request: seq<Message>, c: Conversation) {
    match w.model(turn, request)
    case CallFailed(reason) => c.messages == request && c.ending == ModelFailed(reason)
    case NoChoice => c.messages == request && c.ending == NoChoiceReturned
    case Choice(content, calls) =>
      && c.messages == request + [Assistant(content, calls)] + TurnAnswers(w, turn, calls)
      && (c.ending.Finished? <==> calls == [] || exists i :: 0 <= i < |calls| && w.tool(turn, calls[i]).Returned? && EndsRun(calls[i].tool))
      && (c.ending.Finished? || c.ending.BudgetExhausted? || c.ending.IterationsSpent?)
  }

  lemma TurnStopsMeans(w: World, turn: nat, calls: seq<ToolCall>)
    ensures TurnStops(w, turn, calls) <==> exists i :: 0 <= i < |calls| && w.tool(turn, calls[i]).Returned? && EndsRun(calls[i].tool)
  {
    assert forall i :: 0 <= i < |calls| ==> (Stops(calls[i], w.tool(turn, calls[i])) <==> w.tool(turn, calls[i]).Returned? && EndsRun(calls[i].tool));
  }

  /** The requests start from `ms`, each continues the one before, and the last one decides the end;
      without any request the budget or the iterations were used up before. */
  ghost predicate Told(w: World, iter: nat, ms: seq<Message>, c: Conversation) {
    if c.requests == [] then c.messages == ms && (c.ending.BudgetExhausted? || c.ending.IterationsSpent?)
    else
      && c.requests[0] == ms
      && (forall i :: 0 <= i < |c.requests| - 1 ==> Continues(w, iter + i, c.requests[i], c.requests[i + 1]))
      && EndsAs(w, iter + |c.requests| - 1, c.requests[|c.requests| - 1], c)
  }

  /** The whole conversation, request by request, and how it ends. */
  lemma {:induction false} ConversationMeans(w: World, ms: seq<Message>, iter: nat)
    requires iter <= MAX_LLM_CALLS
    ensures Told(w, iter, ms, Converse(w, ms, iter))
    decreases MAX_LLM_CALLS - iter
  {
    if iter < MAX_LLM_CALLS && !Exceeded(w.budget(iter)) {
      if GoesOn(w, ms, iter) {
        var calls := w.model(iter, ms).calls;
        TurnStopsMeans(w, iter, calls);
        var next := ms + [Assistant(w.model(iter, ms).content, calls)] + TurnAnswers(w, iter, calls);
        ConversationMeans(w, next, iter + 1);
        ConversationStep(w, ms, iter, next, Converse(w, next, iter + 1));
      } else {
        LastTurn(w, ms, iter);
      }
    }
  }

  predicate GoesOn(w: World, ms: seq<Message>, iter: nat) {
    w.model(iter, ms).Choice? && w.model(iter, ms).calls != [] && !TurnStops(w, iter, w.model(iter, ms).calls)
  }

  lemma LastTurn(w: World, ms: seq<Message>, iter: nat)
    requires iter < MAX_LLM_CALLS && !Exceeded(w.budget(iter)) && !GoesOn(w, ms, iter)
    ensures Converse(w, ms, iter).requests == [ms] && EndsAs(w, iter, ms, Converse(w, ms, iter))
  {
    if w.model(iter, ms).Choice? {
      var calls := w.model(iter, ms).calls;
      TurnStopsMeans(w, iter, calls);
      if calls == [] {
        assert TurnAnswers(w, iter, calls) == [];
      }
    }
  }

  lemma ConversationStep(w: World, ms: seq<Message>, iter: nat, next: seq<Message>, rest: Conversation)
    requires Continues(w, iter, ms, next)
    requires Told(w, iter + 1, next, rest)
    ensures Told(w, iter, ms, Asked([ms], rest))
  {
    var c := Asked([ms], rest);
    assert forall i :: 0 < i < |c.requests| ==> c.requests[i] == rest.requests[i - 1];
    forall i | 0 <= i < |c.requests| - 1 ensures Continues(w, iter + i, c.requests[i], c.requests[i + 1]) {
      if i > 0 {
        assert Continues(w, iter + 1 + (i - 1), rest.requests[i - 1], rest.requests[i - 1 + 1]);
      }
    }
  }

  lemma AskedTwice(requests: seq<seq<Message>>, request: seq<Message>, c: Conversation)
    ensures Asked(requests, Asked([request], c)) == Asked(requests + [request], c)
  {
    assert requests + ([request] + c.requests) == requests + [request] + c.requests;
  }

  /** For any model and any tool failures: every request the model receives is a conversation all
      of whose tool calls are answered, a loop makes at most 25 of them, and when it stops the
      transcript is well formed; only a finished loop may end on an assistant message without calls. */
  lemma {:induction false} TranscriptWellFormed(w: World, ms: seq<Message>, iter: nat)
    requires Continuable(ms) && iter <= MAX_LLM_CALLS
    ensures var c := Converse(w, ms, iter);
            && WellFormed(c.messages)
            && (!Continuable(c.messages) ==> c.ending.Finished?)
            && |c.requests| <= MAX_LLM_CALLS - iter
            && (forall r :: r in c.requests ==> Continuable(r))
    decreases MAX_LLM_CALLS - iter
  {
    if iter < MAX_LLM_CALLS && !Exceeded(w.budget(iter)) && w.model(iter, ms).Choice? {
      var a := w.model(iter, ms);
      if a.calls == [] {
        assert (ms + [Assistant(a.content, a.calls)])[..|ms|] == ms;
      } else {
        EveryCallAnswered(w, iter, a.calls);
        TurnAppended(ms, a.content, a.calls, TurnAnswers(w, iter, a.calls));
        if !TurnStops(w, iter, a.calls) {
          TranscriptWellFormed(w, ms + [Assistant(a.content, a.calls)] + TurnAnswers(w, iter, a.calls), iter + 1);
        }
      }
    }
  }

  predicate Spent(b: Budget) {
    b.input >= 150_000 || b.output >= 15_000 || b.calls >= 25
  }

  /** What each ending says about the run: the budget it stopped on, or the number of calls it made. */
  lemma {:induction false} EndingMeans(w: World, ms: seq<Message>, iter: nat)
    requires iter <= MAX_LLM_CALLS
    ensures var c := Converse(w, ms, iter); var n := iter + |c.requests|;
            && (c.ending.IterationsSpent? ==> n == MAX_LLM_CALLS)
            && (c.ending.IterationsSpent? ==> n == 25)
            && (c.ending.BudgetExhausted? ==> n < 25 && Spent(w.budget(n)))
            && (forall i :: iter <= i < n ==> !Spent(w.budget(i)))
    decreases MAX_LLM_CALLS - iter
  {
    if iter < MAX_LLM_CALLS && !Exceeded(w.budget(iter)) && w.model(iter, ms).Choice? {
      var a := w.model(iter, ms);
      if a.calls != [] && !TurnStops(w, iter, a.calls) {
        EndingMeans(w, ms + [Assistant(a.content, a.calls)] + TurnAnswers(w, iter, a.calls), iter + 1);
      }
    }
  }

  // ---------- one budget, many loops ----------

  /** A loop between iterations, with a model call outstanding, or stopped. */
  datatype Pc = Between(iter: nat) | Calling(iter: nat) | Stopped

  /** `peak` bounds how many loops run at once; `charge` bounds the tokens of one call. */
  datatype Limits = Limits(peak: nat, charge: nat)

  datatype Shared = Shared(budget: Budget, loops: map<nat, Pc>)

  datatype Action =
    | Launch(id: nat)
    | Ask(id: nat)
    | Charge(id: nat, input: nat, output: nat)
    | Stop(id: nat)

  function Active(loops: map<nat, Pc>): set<nat> {
    set id | id in loops && !loops[id].Stopped?
  }

  function InFlight(loops: map<nat, Pc>): set<nat> {
    set id | id in loops && loops[id].Calling?
  }

  /** One step; an action that is not enabled changes nothing. Asking reads the stored budget and
      starts a call or stops; charging records a finished call in one atomic update. */
  function Next(l: Limits, s: Shared, act: Action): Shared {
    match act
    case Launch(id) =>
      if id !in s.loops && |Active(s.loops)| < l.peak then s.(loops := s.loops[id := Between(0)]) else s
    case Ask(id) =>
      if id !in s.loops || !s.loops[id].Between? then s
      else
        var iter := s.loops[id].iter;
        s.(loops := s.loops[id := if iter < MAX_LLM_CALLS && !Exceeded(s.budget) then Calling(iter + 1) else Stopped])
    case Charge(id, input, output) =>
      if id !in s.loops || !s.loops[id].Calling? || input > l.charge || output > l.charge then s
      else Shared(Charged(s.budget, input, output), s.loops[id := Between(s.loops[id].iter)])
    case Stop(id) => if id in s.loops then s.(loops := s.loops[id := Stopped]) else s
  }

  function Run(l: Limits, acts: seq<Action>): Shared {
    if acts == [] then Shared(Budget(0, 0, 0), map[]) else Next(l, Run(l, acts[..|acts| - 1]), acts[|acts| - 1])
  }

  /** Each outstanding call is an amount that may still be recorded. */
  ghost predicate Accounted(l: Limits, s: Shared) {
    var flying := |InFlight(s.loops)|;
    && |Active(s.loops)| <= l.peak
    && s.budget.calls + flying <= MAX_LLM_CALLS - 1 + l.peak
    && s.budget.input + flying * l.charge <= MAX_INPUT_TOKENS - 1 + l.peak * l.charge
    && s.budget.output + flying * l.charge <= MAX_OUTPUT_TOKENS - 1 + l.peak * l.charge
  }

  ghost predicate BoundedIterations(s: Shared) {
    forall id :: id in s.loops ==>
      (s.loops[id].Between? ==> s.loops[id].iter <= MAX_LLM_CALLS) && (s.loops[id].Calling? ==> s.loops[id].iter <= MAX_LLM_CALLS)
  }

  lemma FlyingAreActive(loops: map<nat, Pc>)
    ensures |InFlight(loops)| <= |Active(loops)|
  {
    SubsetSize(InFlight(loops), Active(loops));
  }

  lemma SubsetSize(a: set<nat>, b: set<nat>)
    requires a <= b
    ensures |a| <= |b|
  {
    assert b == a + (b - a);
  }

  lemma Monotone(a: nat, b: nat, c: nat)
    requires a <= b
    ensures a * c <= b * c
  {
  }

  lemma LaunchKeeps(l: Limits, s: Shared, id: nat)
    requires Accounted(l, s)
    ensures Accounted(l, Next(l, s, Launch(id)))
  {
    if id !in s.loops && |Active(s.loops)| < l.peak {
      var t := Next(l, s, Launch(id));
      assert Active(t.loops) == Active(s.loops) + {id};
      assert InFlight(t.loops) == InFlight(s.loops);
    }
  }

  lemma AskKeeps(l: Limits, s: Shared, id: nat)
    requires Accounted(l, s)
    ensures Accounted(l, Next(l, s, Ask(id)))
  {
    if id in s.loops && s.loops[id].Between? {
      var t := Next(l, s, Ask(id));
      FlyingAreActive(t.loops);
      if t.loops[id].Calling? {
        assert Active(t.loops) == Active(s.loops);
        Monotone(|InFlight(t.loops)|, l.peak, l.charge);
      } else {
        assert Active(t.loops) == Active(s.loops) - {id};
        assert InFlight(t.loops) == InFlight(s.loops);
      }
    }
  }

  lemma ChargeKeeps(l: Limits, s: Shared, id: nat, input: nat, output: nat)
    requires Accounted(l, s)
    ensures Accounted(l, Next(l, s, Charge(id, input, output)))
  {
    if id in s.loops && s.loops[id].Calling? && input <= l.charge && output <= l.charge {
      var t := Next(l, s, Charge(id, input, output));
      assert Active(t.loops) == Active(s.loops);
      assert InFlight(s.loops) == InFlight(t.loops) + {id};
      var n := |InFlight(t.loops)|;
      assert |InFlight(s.loops)| == n + 1;
      assert (n + 1) * l.charge == n * l.charge + l.charge;
    }
  }

  lemma StopKeeps(l: Limits, s: Shared, id: nat)
    requires Accounted(l, s)
    ensures Accounted(l, Next(l, s, Stop(id)))
  {
    if id in s.loops {
      var t := Next(l, s, Stop(id));
      assert Active(t.loops) == Active(s.loops) - {id};
      assert InFlight(t.loops) == InFlight(s.loops) - {id};
      SubsetSize(InFlight(t.loops), InFlight(s.loops));
      Monotone(|InFlight(t.loops)|, |InFlight(s.loops)|, l.charge);
    }
  }

  lemma {:induction false} RunAccounted(l: Limits, acts: seq<Action>)
    ensures Accounted(l, Run(l, acts)) && BoundedIterations(Run(l, acts))
  {
    if acts == [] {
      assert Active(map[]) == {} && InFlight(map[]) == {};
    } else {
      var s := Run(l, acts[..|acts| - 1]);
      RunAccounted(l, acts[..|acts| - 1]);
      match acts[|acts| - 1] {
        case Launch(id) => LaunchKeeps(l, s, id);
        case Ask(id) => AskKeeps(l, s, id);
        case Charge(id, input, output) => ChargeKeeps(l, s, id, input, output);
        case Stop(id) => StopKeeps(l, s, id);
      }
    }
  }

  /** However loops overlap, with at most `peak` of them at once and at most `charge` tokens a
      call, the recorded budget exceeds its caps by no more than one call per loop, and no loop
      makes more than 25 calls. */
  lemma BudgetUnderOverlap(l: Limits, acts: seq<Action>)
    ensures var b := Run(l, acts).budget;
            && b.calls <= 24 + l.peak
            && b.input < 150_000 + l.peak * l.charge
            && b.output < 15_000 + l.peak * l.charge
    ensures BoundedIterations(Run(l, acts))
  {
    RunAccounted(l, acts);
    var flying := |InFlight(Run(l, acts).loops)|;
    assert flying * l.charge >= 0;
  }

  /** Once a cap is reached no further call is started: only calls already outstanding are recorded. */
  lemma {:induction false} NoCallsPastTheCap(l: Limits, acts: seq<Action>, n: nat)
    requires n <= |acts| && Exceeded(Run(l, acts[..n]).budget)
    ensures Exceeded(Run(l, acts).budget)
    ensures Run(l, acts).budget.calls + |InFlight(Run(l, acts).loops)|
         <= Run(l, acts[..n]).budget.calls + |InFlight(Run(l, acts[..n]).loops)|
    decreases |acts|
  {
    if n == |acts| {
      assert acts[..n] == acts;
    } else {
      var init := acts[..|acts| - 1];
      assert init[..n] == acts[..n];
      NoCallsPastTheCap(l, init, n);
      NoNewCalls(l, Run(l, init), acts[|acts| - 1]);
    }
  }

  lemma NoNewCalls(l: Limits, s: Shared, act: Action)
    requires Exceeded(s.budget)
    ensures var t := Next(l, s, act);
            && Exceeded(t.budget)
            && t.budget.calls + |InFlight(t.loops)| <= s.budget.calls + |InFlight(s.loops)|
  {
    var t := Next(l, s, act);
    match act {
      case Charge(id, input, output) =>
        if t != s {
          assert InFlight(s.loops) == InFlight(t.loops) + {id};
        }
      case _ => SubsetSize(InFlight(t.loops), InFlight(s.loops));
    }
  }

  /** What a run has spent: the tokens and the number of the calls that were charged. */
  function Charges(l: Limits, acts: seq<Action>): Budget {
    if acts == [] then Budget(0, 0, 0)
    else
      var init, last := acts[..|acts| - 1], acts[|acts| - 1];
      var before := Charges(l, init);
      if Run(l, init) != Run(l, acts) && last.Charge? then Budget(before.input + last.input, before.output + last.output, before.calls + 1)
      else before
  }

  /** Nothing is lost and nothing is counted twice. */
  lemma {:induction false} BudgetIsTheSum(l: Limits, acts: seq<Action>)
    ensures Run(l, acts).budget == Charges(l, acts)
  {
    if acts != [] {
      BudgetIsTheSum(l, acts[..|acts| - 1]);
    }
  }

  // ---------- the bounds are reached ----------

  function Rounds(n: nat, x: nat, y: nat): seq<Action> {
    if n == 0 then [] else Rounds(n - 1, x, y) + [Ask(0), Charge(0, x, y)]
  }

  /** One action of each of the loops 1 to k. */
  function Each(k: nat, f: nat -> Action): seq<Action> {
    if k == 0 then [] else Each(k - 1, f) + [f(k)]
  }

  function LaunchOf(id: nat): Action { Launch(id) }
  function AskOf(id: nat): Action { Ask(id) }
  function ChargeOf(c: nat): nat -> Action { (id: nat) => Charge(id, c, c) }

  /** A loop that makes n calls and stops; then as many loops as may run at once, which all ask
      before any of them is charged. */
  function Overlapping(l: Limits, n: nat, x: nat, y: nat): seq<Action> {
    [Launch(0)] + Rounds(n, x, y) + [Stop(0)]
    + Each(l.peak, LaunchOf) + Each(l.peak, AskOf) + Each(l.peak, ChargeOf(l.charge))
  }

  /** Loop 0 has stopped; of the loops 1 to k, those up to j are at `a` and the others at `b`. */
  function Mixed(k: nat, j: nat, a: Pc, b: Pc): map<nat, Pc> {
    map i: nat | i <= k && Among(i, k) :: if i == 0 then Stopped else if i <= j then a else b
  }

  predicate Among(i: nat, k: nat) {
    i <= k
  }

  function Upto(k: nat): set<nat> {
    set i: nat | i <= k && Among(i, k) && i > 0
  }

  lemma {:induction false} UptoSize(k: nat)
    ensures |Upto(k)| == k
  {
    if k > 0 {
      UptoSize(k - 1);
      assert Upto(k) == Upto(k - 1) + {k};
    }
  }

  lemma RunSnoc(l: Limits, acts: seq<Action>, act: Action)
    ensures Run(l, acts + [act]) == Next(l, Run(l, acts), act)
  {
    assert (acts + [act])[..|acts|] == acts;
  }

  lemma EachSnoc(l: Limits, acts: seq<Action>, k: nat, f: nat -> Action)
    requires k > 0
    ensures Run(l, acts + Each(k, f)) == Next(l, Run(l, acts + Each(k - 1, f)), f(k))
  {
    assert acts + Each(k, f) == acts + Each(k - 1, f) + [f(k)];
    RunSnoc(l, acts + Each(k - 1, f), f(k));
  }

  lemma LaunchStep(l: Limits, b: Budget, k: nat)
    requires 0 < k <= l.peak
    ensures Next(l, Shared(b, Mixed(k - 1, 0, Stopped, Between(0))), Launch(k)) == Shared(b, Mixed(k, 0, Stopped, Between(0)))
  {
    var loops := Mixed(k - 1, 0, Stopped, Between(0));
    assert Active(loops) == Upto(k - 1);
    UptoSize(k - 1);
    assert loops[k := Between(0)] == Mixed(k, 0, Stopped, Between(0));
  }

  lemma {:induction false} LaunchAll(l: Limits, acts: seq<Action>, b: Budget, k: nat)
    requires Run(l, acts) == Shared(b, Mixed(0, 0, Stopped, Between(0))) && k <= l.peak
    ensures Run(l, acts + Each(k, LaunchOf)) == Shared(b, Mixed(k, 0, Stopped, Between(0)))
  {
    if k == 0 {
      assert acts + Each(k, LaunchOf) == acts;
    } else {
      LaunchAll(l, acts, b, k - 1);
      EachSnoc(l, acts, k, LaunchOf);
      LaunchStep(l, b, k);
    }
  }

  lemma OneMoves(k: nat, j: nat, a: Pc, b: Pc)
    requires 0 < j <= k
    ensures j in Mixed(k, j - 1, a, b) && Mixed(k, j - 1, a, b)[j] == b && Mixed(k, j - 1, a, b)[j := a] == Mixed(k, j, a, b)
  {
  }

  /** Nobody has moved, or everybody has. */
  lemma AllAlike(k: nat, a: Pc, b: Pc, c: Pc)
    ensures Mixed(k, 0, a, b) == Mixed(k, k, b, c)
  {
  }

  lemma {:induction false} AskAll(l: Limits, acts: seq<Action>, b: Budget, k: nat, j: nat)
    requires Run(l, acts) == Shared(b, Mixed(k, 0, Calling(1), Between(0))) && j <= k && !Exceeded(b)
    ensures Run(l, acts + Each(j, AskOf)) == Shared(b, Mixed(k, j, Calling(1), Between(0)))
  {
    if j == 0 {
      assert acts + Each(j, AskOf) == acts;
    } else {
      AskAll(l, acts, b, k, j - 1);
      EachSnoc(l, acts, j, AskOf);
      AskStep(l, b, k, j);
    }
  }

  lemma AskStep(l: Limits, b: Budget, k: nat, j: nat)
    requires 0 < j <= k && !Exceeded(b)
    ensures Next(l, Shared(b, Mixed(k, j - 1, Calling(1), Between(0))), AskOf(j)) == Shared(b, Mixed(k, j, Calling(1), Between(0)))
  {
    OneMoves(k, j, Calling(1), Between(0));
  }

  /** The budget after n more calls of the same size. */
  function Plus(b: Budget, n: nat, x: nat, y: nat): Budget {
    if n == 0 then b else Charged(Plus(b, n - 1, x, y), x, y)
  }

  lemma {:induction false} PlusMeans(b: Budget, n: nat, x: nat, y: nat)
    ensures Plus(b, n, x, y) == Budget(b.input + n * x, b.output + n * y, b.calls + n)
  {
    if n > 0 {
      PlusMeans(b, n - 1, x, y);
      assert n * x == (n - 1) * x + x && n * y == (n - 1) * y + y;
    }
  }

  lemma {:induction false} ChargeAll(l: Limits, acts: seq<Action>, b: Budget, k: nat, j: nat)
    requires Run(l, acts) == Shared(b, Mixed(k, 0, Between(1), Calling(1))) && j <= k
    ensures Run(l, acts + Each(j, ChargeOf(l.charge))) == Shared(Plus(b, j, l.charge, l.charge), Mixed(k, j, Between(1), Calling(1)))
  {
    if j == 0 {
      assert acts + Each(j, ChargeOf(l.charge)) == acts;
    } else {
      ChargeAll(l, acts, b, k, j - 1);
      EachSnoc(l, acts, j, ChargeOf(l.charge));
      OneMoves(k, j, Between(1), Calling(1));
    }
  }

  lemma {:induction false} PlusCalls(b: Budget, n: nat, x: nat, y: nat)
    ensures Plus(b, n, x, y).calls == b.calls + n
  {
    if n > 0 {
      PlusCalls(b, n - 1, x, y);
    }
  }

  lemma SpendsOnce(l: Limits, b: Budget, n: nat, x: nat, y: nat)
    requires x <= l.charge && y <= l.charge && n < 25 && !Exceeded(b)
    ensures Next(l, Next(l, Shared(b, map[0 := Between(n)]), Ask(0)), Charge(0, x, y)) == Shared(Charged(b, x, y), map[0 := Between(n + 1)])
  {
  }

  lemma {:induction false} SpendsAlone(l: Limits, n: nat, x: nat, y: nat)
    requires l.peak > 0 && x <= l.charge && y <= l.charge && !Exceeded(Plus(Budget(0, 0, 0), n, x, y))
    ensures Run(l, [Launch(0)] + Rounds(n, x, y)) == Shared(Plus(Budget(0, 0, 0), n, x, y), map[0 := Between(n)])
  {
    if n == 0 {
      assert [Launch(0)] + Rounds(n, x, y) == [] + [Launch(0)];
      RunSnoc(l, [], Launch(0));
      assert Active(map[]) == {};
    } else {
      PlusCalls(Budget(0, 0, 0), n, x, y);
      SpendsAlone(l, n - 1, x, y);
      var before := [Launch(0)] + Rounds(n - 1, x, y);
      RunSnoc(l, before, Ask(0));
      RunSnoc(l, before + [Ask(0)], Charge(0, x, y));
      SpendsOnce(l, Plus(Budget(0, 0, 0), n - 1, x, y), n - 1, x, y);
      assert before + [Ask(0)] + [Charge(0, x, y)] == [Launch(0)] + Rounds(n, x, y);
    }
  }

  /** As many loops as may overlap overshoot any budget that one loop can spend within the caps, by
      exactly one call each. */
  lemma OverlapOvershoots(l: Limits, n: nat, x: nat, y: nat)
    requires l.peak > 0 && x <= l.charge && y <= l.charge && !Exceeded(Plus(Budget(0, 0, 0), n, x, y))
    ensures Run(l, Overlapping(l, n, x, y)).budget == Plus(Plus(Budget(0, 0, 0), n, x, y), l.peak, l.charge, l.charge)
  {
    var b := Plus(Budget(0, 0, 0), n, x, y);
    var alone := [Launch(0)] + Rounds(n, x, y) + [Stop(0)];
    SpendsAlone(l, n, x, y);
    RunSnoc(l, [Launch(0)] + Rounds(n, x, y), Stop(0));
    assert map[0 := Between(n)][0 := Stopped] == Mixed(0, 0, Stopped, Between(0));
    LaunchAll(l, alone, b, l.peak);
    AllAlike(l.peak, Stopped, Between(0), Stopped);
    AllAlike(l.peak, Calling(1), Between(0), Stopped);
    AskAll(l, alone + Each(l.peak, LaunchOf), b, l.peak, l.peak);
    AllAlike(l.peak, Between(1), Calling(1), Between(0));
    ChargeAll(l, alone + Each(l.peak, LaunchOf) + Each(l.peak, AskOf), b, l.peak, l.peak);
  }

  /** The bounds of `BudgetUnderOverlap` cannot be improved: the number of calls is reached for every
      peak, the tokens as soon as one call may be that large. */
  lemma BoundsAreReached(l: Limits)
    requires l.peak > 0
    ensures exists acts :: Run(l, acts).budget.calls == 24 + l.peak
    ensures l.charge >= 149_999 ==> exists acts :: Run(l, acts).budget.input == 149_999 + l.peak * l.charge
    ensures l.charge >= 14_999 ==> exists acts :: Run(l, acts).budget.output == 14_999 + l.peak * l.charge
  {
    CallsReached(l, 24);
    if l.charge >= 149_999 { TokensReached(l, 1, 149_999, 0); }
    if l.charge >= 14_999 { TokensReached(l, 1, 0, 14_999); }
  }

  lemma CallsReached(l: Limits, n: nat)
    requires l.peak > 0 && n <= 24
    ensures exists acts :: Run(l, acts).budget.calls == n + l.peak
  {
    var b := Plus(Budget(0, 0, 0), n, 0, 0);
    PlusMeans(Budget(0, 0, 0), n, 0, 0);
    OverlapOvershoots(l, n, 0, 0);
    PlusCalls(b, l.peak, l.charge, l.charge);
  }

  lemma TokensReached(l: Limits, n: nat, x: nat, y: nat)
    requires l.peak > 0 && n == 1 && x <= l.charge && y <= l.charge && x < 150_000 && y < 15_000
    ensures exists acts :: Run(l, acts).budget.input == x + l.peak * l.charge
    ensures exists acts :: Run(l, acts).budget.output == y + l.peak * l.charge
  {
    var b := Plus(Budget(0, 0, 0), n, x, y);
    assert b == Charged(Plus(Budget(0, 0, 0), 0, x, y), x, y) == Budget(x, y, 1);
    OverlapOvershoots(l, n, x, y);
    PlusMeans(b, l.peak, l.charge, l.charge);
  }
}
