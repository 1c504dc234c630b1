/** The two ends of one function execution: the messages an isolated worker posts, the host
    object that reacts to them, and their composition through a FIFO message port with two
    timers, worker crashes and a client that may hang up at any moment. */
module WorkerProtocol {
  import opened Wrappers
  import Base64

  type Bytes = seq<Base64.Byte>
  type Headers = map<string, string>

  const MAX_LOG_ENTRIES := 100
  const MAX_LOG_LENGTH := 10_000

  datatype LogEntry = LogEntry(level: string, message: string, timestamp: int)

  datatype Reply = Reply(status: int, headers: Headers, bodyBase64: string)

  /** Everything the message port can carry. */
  datatype Message =
    | Console(entry: LogEntry)
    | StreamStart(status: int, headers: Headers)
    | StreamChunk(chunkBase64: string)
    | StreamEnd
    | StreamError(reason: string)
    | Success(response: Reply)
    | Failure(reason: string)
    | Done

  // ---------- the host ----------

  /** Which `onmessage`/`onerror` pair is installed. */
  datatype Handler = AwaitReply | Relaying | Background

  /** The writable half of the client stream; Open means the host still holds its writer. */
  datatype Sink = Absent | Open | Closed | Aborted(reason: string)

  datatype Outcome = Resolved(reply: Message) | TimedOut | Crashed(reason: string)

  /** Handler, timers and fate of one execution. */
  datatype Life = Life(
    handler: Handler,
    responded: bool,
    execArmed: bool,
    bgArmed: bool,
    terminated: bool,
    errored: bool,
    outcome: Option<Outcome>,
    attempts: seq<Outcome>)  // every call of `resolve` or `reject`, in order

  /** What the client sees of a streamed answer. */
  datatype Client = Client(sink: Sink, cancelled: bool, written: Bytes, closings: nat)

  datatype Host = Host(life: Life, client: Client, logs: seq<LogEntry>)

  datatype Event =
    | Arrived(m: Message)
    | ExecTimer
    | BgTimer
    | WorkerError(reason: string)
    | ClientCancel

  const Fresh: Host := Host(Life(AwaitReply, false, true, false, false, false, None, []), Client(Absent, false, [], 0), [])

  /** The first settlement of a promise wins. */
  function Settle(o: Option<Outcome>, now: Outcome): Option<Outcome> {
    if o.Some? then o else Some(now)
  }

  function Attempt(l: Life, o: Outcome): Life {
    l.(outcome := Settle(l.outcome, o), attempts := l.attempts + [o])
  }

  function LifeNext(l: Life, e: Event): Life {
    match e
    case ClientCancel => l
    case ExecTimer => Attempt(l.(execArmed := false, terminated := true), TimedOut)
    case BgTimer => l.(bgArmed := false, terminated := true)
    case WorkerError(reason) =>
      if l.handler.AwaitReply?
      then Attempt(l.(errored := true, execArmed := false), Crashed(reason))
      else l.(errored := true, bgArmed := false, terminated := true)
    case Arrived(m) =>
      match l.handler
      case AwaitReply =>
        if IsReply(m) then
          Attempt(l.(handler := if m.StreamStart? then Relaying else Background, responded := true,
                     execArmed := false, bgArmed := true), Resolved(m))
        else l
      case Relaying =>
        if m.StreamEnd? then l.(bgArmed := false)
        else if m.Done? || m.StreamError? then l.(bgArmed := false, terminated := true)
        else l
      case Background =>
        if m.Done? then l.(bgArmed := false, terminated := true) else l
  }

  predicate IsReply(m: Message) {
    m.StreamStart? || m.Success? || m.Failure?
  }

  /** Releasing the writer closes or aborts the stream once; without a writer it does nothing. */
  function Release(c: Client, final: Sink): Client {
    if c.sink.Open? then c.(sink := final, closings := c.closings + 1) else c
  }

  /** A chunk reaches the client unless the writer is gone, the client hung up or the text is not base64. */
  function Relay(c: Client, base64: string): Client {
    match Base64.DecodedBytes(base64)
    case None => c
    case Some(bytes) => if c.sink.Open? && !c.cancelled then c.(written := c.written + bytes) else c
  }

  function ClientNext(handler: Handler, c: Client, e: Event): Client {
    if e.ClientCancel? then c.(cancelled := true)
    else if e.Arrived? && e.m.StreamStart? && handler.AwaitReply? then c.(sink := Open)
    else if !handler.Relaying? then c
    else
      match e
      case ExecTimer => c
      case BgTimer => Release(c, Aborted("stream timeout"))
      case WorkerError(_) => Release(c, Aborted("worker error"))
      case Arrived(m) =>
        if m.StreamChunk? then Relay(c, m.chunkBase64)
        else if m.StreamEnd? || m.Done? then Release(c, Closed)
        else if m.StreamError? then Release(c, Aborted(if m.reason == "" then "stream error" else m.reason))
        else c
  }

  function Clip(entry: LogEntry): LogEntry {
    if |entry.message| <= MAX_LOG_LENGTH then entry
    else entry.(message := entry.message[..MAX_LOG_LENGTH])
  }

  function Recorded(logs: seq<LogEntry>, entry: LogEntry): seq<LogEntry> {
    if |logs| < MAX_LOG_ENTRIES then logs + [Clip(entry)] else logs
  }

  function LogsNext(handler: Handler, logs: seq<LogEntry>, e: Event): seq<LogEntry> {
    if e.Arrived? && e.m.Console? && !handler.Background? then Recorded(logs, e.m.entry) else logs
  }

  function React(h: Host, e: Event): Host {
    Host(LifeNext(h.life, e), ClientNext(h.life.handler, h.client, e), LogsNext(h.life.handler, h.logs, e))
  }

  /** The host object: its fields are the closure variables of one execution, and each method
      is the callback the runtime invokes for one kind of event. */
  class Executor {
    var handler: Handler
    var responded: bool
    var execArmed: bool
    var bgArmed: bool
    var terminated: bool
    var errored: bool
    var outcome: Option<Outcome>
    ghost var attempts: seq<Outcome>
    var sink: Sink
    var cancelled: bool
    var written: Bytes
    var closings: nat
    var logs: seq<LogEntry>

    ghost function View(): Host
      reads this
    {
      Host(Life(handler, responded, execArmed, bgArmed, terminated, errored, outcome, attempts),
           Client(sink, cancelled, written, closings), logs)
    }

    /** A reply is taken only while none was: the flag agrees with the installed handler. */
    predicate Valid()
      reads this
    {
      responded <==> !handler.AwaitReply?
    }

    constructor ()
      ensures Valid() && View() == Fresh
    {
      handler, responded, outcome, sink := AwaitReply, false, None, Absent;
      execArmed, bgArmed, terminated, errored, cancelled := true, false, false, false, false;
      written, closings, logs, attempts := [], 0, [], [];
    }

    method CollectLog(entry: LogEntry)
      modifies this`logs
      ensures logs == Recorded(old(logs), entry)
    {
      if |logs| < MAX_LOG_ENTRIES {
        var text := entry.message;
        if |text| > MAX_LOG_LENGTH {
          text := text[..MAX_LOG_LENGTH];
        }
        logs := logs + [LogEntry(entry.level, text, entry.timestamp)];
      }
    }

    method SettleWith(o: Outcome)
      modifies this`outcome, this`attempts
      ensures outcome == Settle(old(outcome), o) && attempts == old(attempts) + [o]
    {
      attempts := attempts + [o];
      if outcome.None? {
        outcome := Some(o);
      }
    }

    method CloseStreamWriter(error: Option<string>)
      modifies this`sink, this`closings
      ensures View().client == Release(old(View().client), if error.Some? then Aborted(error.value) else Closed)
    {
      if !sink.Open? {
        return;
      }
      sink := if error.Some? then Aborted(error.value) else Closed;
      closings := closings + 1;
    }

    method OnMessage(m: Message)
      requires Valid()
      modifies this
      ensures Valid() && View() == React(old(View()), Arrived(m))
    {
      match handler {
        case AwaitReply => OnFirstMessage(m);
        case Relaying => OnStreamMessage(m);
        case Background =>
          if m.Done? {
            bgArmed := false;
            terminated := true;
          }
      }
    }

    /** The handler installed at the start; a reply replaces it. */
    method OnFirstMessage(m: Message)
      requires Valid() && handler.AwaitReply?
      modifies this
      ensures Valid() && View() == React(old(View()), Arrived(m))
    {
      if m.Console? {
        CollectLog(m.entry);
      } else if !responded && m.StreamStart? {
        sink := Open;
        TakeReply(m, Relaying);
      } else if !responded && (m.Success? || m.Failure?) {
        TakeReply(m, Background);
      }
    }

    method TakeReply(m: Message, next: Handler)
      requires Valid() && handler.AwaitReply? && IsReply(m) && next == (if m.StreamStart? then Relaying else Background)
      modifies this`handler, this`responded, this`execArmed, this`bgArmed, this`outcome, this`attempts
      ensures Valid() && View() == old(View()).(life := LifeNext(old(View()).life, Arrived(m)))
    {
      responded := true;
      execArmed := false;
      SettleWith(Resolved(m));
      bgArmed := true;
      handler := next;
    }

    /** The handler of a streamed answer. */
    method OnStreamMessage(m: Message)
      requires Valid() && handler.Relaying?
      modifies this
      ensures Valid() && View() == React(old(View()), Arrived(m))
    {
      if m.StreamChunk? && sink.Open? {
        WriteChunk(m.chunkBase64);
      } else if m.StreamEnd? || m.Done? {
        CloseStreamWriter(None);
        bgArmed := false;
        if m.Done? {
          terminated := true;
        }
      } else if m.StreamError? {
        CloseStreamWriter(Some(if m.reason == "" then "stream error" else m.reason));
        bgArmed := false;
        terminated := true;
      } else if m.Console? {
        CollectLog(m.entry);
      }
    }

    method WriteChunk(base64: string)
      requires sink.Open?
      modifies this`written
      ensures View().client == Relay(old(View().client), base64)
    {
      var chunk := Base64.DecodeBody(base64);
      if chunk.Some? && !cancelled {
        written := written + chunk.value[..];
      }
    }

    method OnExecTimer()
      requires Valid() && execArmed
      modifies this
      ensures Valid() && View() == React(old(View()), ExecTimer)
    {
      execArmed := false;
      terminated := true;
      SettleWith(TimedOut);
    }

    method OnBgTimer()
      requires Valid() && bgArmed
      modifies this
      ensures Valid() && View() == React(old(View()), BgTimer)
    {
      bgArmed := false;
      if handler.Relaying? {
        CloseStreamWriter(Some("stream timeout"));
      }
      terminated := true;
    }

    method OnError(reason: string)
      requires Valid()
      modifies this
      ensures Valid() && View() == React(old(View()), WorkerError(reason))
    {
      errored := true;
      match handler {
        case AwaitReply =>
          execArmed := false;
          SettleWith(Crashed(reason));
        case Relaying =>
          CloseStreamWriter(Some("worker error"));
          bgArmed := false;
          terminated := true;
        case Background =>
          bgArmed := false;
          terminated := true;
      }
    }

    method OnClientCancel()
      requires Valid()
      modifies this
      ensures Valid() && View() == React(old(View()), ClientCancel)
    {
      cancelled := true;
    }
  }

  // ---------- the worker ----------

  datatype Ending = Clean | Broken(reason: string)

  /** What the user's handler produced. A Streamed answer lists the chunks its body reader
      will deliver; Locked is a stream whose reader cannot be acquired. */
  datatype Handled =
    | Threw(reason: string)
    | ThrewNull  // reading `message` of a thrown null or undefined throws again
    | Buffered(status: int, headers: Headers, body: Bytes)
    | Streamed(status: int, headers: Headers, chunks: seq<Bytes>, ending: Ending)
    | Locked(status: int, headers: Headers, reason: string)

  function ChunkMessages(chunks: seq<Bytes>): seq<Message> {
    seq(|chunks|, i requires 0 <= i < |chunks| => StreamChunk(Base64.Encode(chunks[i])))
  }

  /** The protocol messages of a worker that runs to completion; one that hangs or dies posts a prefix. */
  function Script(a: Handled): seq<Message> {
    match a
    case Threw(reason) => [Failure(reason), Done]
    case ThrewNull => [Done]
    case Buffered(status, headers, body) => [Success(Reply(status, headers, Base64.Encode(body))), Done]
    case Streamed(status, headers, chunks, ending) =>
      [StreamStart(status, headers)] + ChunkMessages(chunks)
      + [if ending.Clean? then StreamEnd else StreamError(ending.reason), Done]
    case Locked(status, headers, reason) => [StreamStart(status, headers), Failure(reason), Done]
  }

  function Chunks(a: Handled): seq<Bytes> {
    if a.Streamed? then a.chunks else []
  }

  /** The driver at the end of the worker template. */
  method Drive(a: Handled) returns (posted: seq<Message>)
    ensures posted == Script(a)
  {
    posted := [];
    match a {
      case Threw(reason) =>
        posted := posted + [Failure(reason)];
      case ThrewNull =>
      case Locked(status, headers, reason) =>
        posted := posted + [StreamStart(status, headers)];
        posted := posted + [Failure(reason)];
      case Buffered(status, headers, body) =>
        var bytes := new Base64.Byte[|body|](i requires 0 <= i < |body| => body[i]);
        assert bytes[..] == body;
        var base64 := Base64.EncodeBody(bytes);
        posted := posted + [Success(Reply(status, headers, base64))];
      case Streamed(status, headers, chunks, ending) =>
        posted := [StreamStart(status, headers)];
        for i := 0 to |chunks|
          invariant posted == [StreamStart(status, headers)] + ChunkMessages(chunks[..i])
        {
          var bytes := new Base64.Byte[|chunks[i]|](j requires 0 <= j < |chunks[i]| => chunks[i][j]);
          assert bytes[..] == chunks[i];
          var base64 := Base64.EncodeBody(bytes);
          posted := posted + [StreamChunk(base64)];
          assert ChunkMessages(chunks[..i + 1]) == ChunkMessages(chunks[..i]) + [StreamChunk(base64)];
        }
        assert chunks[..|chunks|] == chunks;
        posted := posted + [if ending.Clean? then StreamEnd else StreamError(ending.reason)];
    }
    posted := posted + [Done];
  }

  // ---------- composition ----------

  /** `posted` is everything the worker ever put on the port, in order; the first `delivered`
      of those messages have reached the host; `sent` counts the posted protocol messages. */
  datatype System = System(host: Host, posted: seq<Message>, sent: nat, delivered: nat)

  datatype Action =
    | Post
    | Log(entry: LogEntry)
    | Deliver
    | FireExec
    | FireBg
    | Crash(reason: string)
    | Cancel

  const Start: System := System(Fresh, [], 0, 0)

  /** One step; an action that is not enabled changes nothing. A terminated worker's messages
      are never delivered. */
  function Next(a: Handled, s: System, act: Action): System {
    match act
    case Post =>
      if s.sent < |Script(a)| then s.(posted := s.posted + [Script(a)[s.sent]], sent := s.sent + 1) else s
    case Log(entry) => s.(posted := s.posted + [Console(entry)])
    case Deliver =>
      if s.delivered < |s.posted| && !s.host.life.terminated
      then s.(host := React(s.host, Arrived(s.posted[s.delivered])), delivered := s.delivered + 1)
      else s
    case FireExec => if s.host.life.execArmed then s.(host := React(s.host, ExecTimer)) else s
    case FireBg => if s.host.life.bgArmed then s.(host := React(s.host, BgTimer)) else s
    case Crash(reason) => s.(host := React(s.host, WorkerError(reason)))
    case Cancel => s.(host := React(s.host, ClientCancel))
  }

  /** Every interleaving is a sequence of actions. */
  function Run(a: Handled, acts: seq<Action>): System {
    if acts == [] then Start else Next(a, Run(a, acts[..|acts| - 1]), acts[|acts| - 1])
  }

  function Flatten(chunks: seq<Bytes>): Bytes {
    if chunks == [] then [] else Flatten(chunks[..|chunks| - 1]) + chunks[|chunks| - 1]
  }

  function Protocol(ms: seq<Message>): seq<Message> {
    if ms == [] then []
    else
      var rest, m := Protocol(ms[..|ms| - 1]), ms[|ms| - 1];
      if m.Console? then rest else rest + [m]
  }

  lemma {:induction false} ProtocolPrefix(ms: seq<Message>, n: nat)
    requires n <= |ms|
    ensures Protocol(ms[..n]) <= Protocol(ms)
    decreases |ms|
  {
    if n == |ms| {
      assert ms[..n] == ms;
    } else {
      var init := ms[..|ms| - 1];
      ProtocolPrefix(init, n);
      assert init[..n] == ms[..n];
    }
  }

  lemma {:induction false} FlattenMonotone(chunks: seq<Bytes>, n: nat)
    requires n <= |chunks|
    ensures Flatten(chunks[..n]) <= Flatten(chunks)
    decreases |chunks|
  {
    if n == |chunks| {
      assert chunks[..n] == chunks;
    } else {
      var init := chunks[..|chunks| - 1];
      FlattenMonotone(init, n);
      assert init[..n] == chunks[..n];
    }
  }

  /** How many protocol messages the host has seen. */
  function Seen(s: System): nat
    requires s.delivered <= |s.posted|
  {
    |Protocol(s.posted[..s.delivered])|
  }

  function Relayed(a: Handled, k: nat): nat {
    if k == 0 then 0 else if k - 1 <= |Chunks(a)| then k - 1 else |Chunks(a)|
  }

  /** The stream's normal end, or the final message, is among the first k protocol messages. */
  predicate Ended(a: Handled, k: nat) {
    k >= |Chunks(a)| + 2
  }

  /** The port delivers a prefix of what the script posted, in order. */
  ghost predicate PortInv(a: Handled, s: System) {
    && s.sent <= |Script(a)|
    && s.delivered <= |s.posted|
    && Protocol(s.posted) == Script(a)[..s.sent]
  }

  /** The client's view is determined by how far the script has been seen. */
  ghost predicate StreamInv(a: Handled, k: nat, handler: Handler, c: Client) {
    && (handler.AwaitReply? <==> k == 0 || a.ThrewNull?)
    && (handler.Relaying? ==> a.Streamed? || a.Locked?)
    && (c.sink.Absent? <==> !handler.Relaying?)
    && c.written <= Flatten(Chunks(a)[..Relayed(a, k)])
    && (c.sink.Open? ==> k <= |Chunks(a)| + 1 || a.Locked?)
    && (c.sink.Open? && !c.cancelled ==> c.written == Flatten(Chunks(a)[..Relayed(a, k)]))
    && (c.sink.Closed? ==> Ended(a, k) && !(a.Streamed? && a.ending.Broken?))
    && (c.sink.Closed? && !c.cancelled ==> c.written == Flatten(Chunks(a)))
    && c.closings == (if c.sink.Closed? || c.sink.Aborted? then 1 else 0)
  }

  /** Some timer, a terminated or crashed worker, or a finished stream accounts for every state. */
  ghost predicate LifeInv(a: Handled, k: nat, l: Life) {
    && k <= |Script(a)|
    && (l.responded <==> !l.handler.AwaitReply?)
    && (l.handler.AwaitReply? <==> k == 0 || a.ThrewNull?)
    && (l.handler.Relaying? ==> a.Streamed? || a.Locked?)
    && (l.handler.Background? ==> a.Threw? || a.Buffered?)
    && (l.execArmed ==> l.handler.AwaitReply? && !l.terminated && l.outcome.None?)
    && (l.bgArmed ==> !l.handler.AwaitReply? && !l.terminated)
    && (l.handler.AwaitReply? ==> l.execArmed || l.terminated || l.errored)
    && (l.handler.Background? ==> l.bgArmed || l.terminated)
    && (l.handler.Relaying? && !l.bgArmed && !l.terminated ==>
          a.Streamed? && a.ending.Clean? && k == |a.chunks| + 2)
    && (a.Streamed? && Ended(a, k) ==> !l.bgArmed)
    && (k == |Script(a)| ==> l.terminated || a.ThrewNull?)
    && (l.outcome.None? <==> l.handler.AwaitReply? && !l.errored && !l.terminated)
    && (l.outcome.Some? && l.outcome.value.Resolved? ==> k > 0 && l.outcome.value.reply == Script(a)[0])
  }

  ghost predicate HostInv(a: Handled, k: nat, h: Host) {
    StreamInv(a, k, h.life.handler, h.client) && LifeInv(a, k, h.life)
  }

  ghost predicate Inv(a: Handled, s: System) {
    PortInv(a, s) && HostInv(a, Seen(s), s.host)
  }

  lemma ScriptShape(a: Handled, k: nat)
    requires k < |Script(a)|
    ensures k == 0 ==> IsReply(Script(a)[0]) || a.ThrewNull?
    ensures Script(a)[0].StreamStart? <==> a.Streamed? || a.Locked?
    ensures k > 0 && Script(a)[k].StreamChunk? <==> a.Streamed? && 1 <= k <= |a.chunks|
    ensures Script(a)[k].StreamChunk? ==> Script(a)[k].chunkBase64 == Base64.Encode(a.chunks[k - 1])
    ensures Script(a)[k].StreamEnd? <==> a.Streamed? && a.ending.Clean? && k == |a.chunks| + 1
    ensures Script(a)[k].StreamError? <==> a.Streamed? && a.ending.Broken? && k == |a.chunks| + 1
    ensures Script(a)[k].Done? <==> k == |Script(a)| - 1
    ensures k > 0 && Script(a)[k].Failure? ==> a.Locked? && k == 1
    ensures Script(a)[k].Success? ==> k == 0
    ensures !Script(a)[k].Console?
    ensures |Script(a)| == (if a.Streamed? then |a.chunks| + 3 else if a.Locked? then 3 else if a.ThrewNull? then 1 else 2)
    ensures Script(a)[k].StreamStart? ==> k == 0
  {
    if a.Streamed? {
      StreamScript(a, k);
    } else {
      ShortScript(a, k);
    }
  }

  lemma StreamScript(a: Handled, k: nat)
    requires a.Streamed? && k < |Script(a)|
    ensures |Script(a)| == |a.chunks| + 3
    ensures Script(a)[k] == if k == 0 then StreamStart(a.status, a.headers)
                            else if k <= |a.chunks| then StreamChunk(Base64.Encode(a.chunks[k - 1]))
                            else if k == |a.chunks| + 1 then (if a.ending.Clean? then StreamEnd else StreamError(a.ending.reason))
                            else Done
  {
    var first := StreamStart(a.status, a.headers);
    var last := if a.ending.Clean? then StreamEnd else StreamError(a.ending.reason);
    Framed(first, ChunkMessages(a.chunks), last, Done, k);
  }

  lemma Framed(first: Message, middle: seq<Message>, last: Message, done: Message, k: nat)
    requires k < |middle| + 3
    ensures ([first] + middle + [last, done])[k] ==
            if k == 0 then first else if k <= |middle| then middle[k - 1] else if k == |middle| + 1 then last else done
  {
  }

  lemma ShortScript(a: Handled, k: nat)
    requires !a.Streamed? && k < |Script(a)|
    ensures |Script(a)| == (if a.Locked? then 3 else if a.ThrewNull? then 1 else 2)
    ensures Script(a)[k] == if k == |Script(a)| - 1 then Done
                            else if a.Locked? then (if k == 0 then StreamStart(a.status, a.headers) else Failure(a.reason))
                            else if a.Threw? then Failure(a.reason)
                            else Success(Reply(a.status, a.headers, Base64.Encode(a.body)))
  {
  }

  lemma InvAtStart(a: Handled)
    ensures Inv(a, Start)
  {
    assert Start.posted[..0] == [];
    assert Script(a)[..0] == [];
    assert Chunks(a)[..0] == [];
  }

  lemma PostKeepsPort(a: Handled, s: System, m: Message, sent: nat)
    requires PortInv(a, s)
    requires sent == (if m.Console? then s.sent else s.sent + 1)
    requires !m.Console? ==> s.sent < |Script(a)| && m == Script(a)[s.sent]
    ensures var t := s.(posted := s.posted + [m], sent := sent);
            PortInv(a, t) && Seen(t) == Seen(s)
  {
    ProtocolSnoc(s.posted, m);
    PrefixSnoc(s.posted, m, s.delivered);
    if !m.Console? {
      PrefixExtend(Script(a), s.sent);
    }
  }

  lemma ProtocolSnoc(ms: seq<Message>, m: Message)
    ensures Protocol(ms + [m]) == if m.Console? then Protocol(ms) else Protocol(ms) + [m]
  {
    assert (ms + [m])[..|ms|] == ms;
  }

  lemma PrefixSnoc<T>(s: seq<T>, x: T, n: nat)
    requires n <= |s|
    ensures (s + [x])[..n] == s[..n]
  {
  }

  lemma PrefixExtend<T>(s: seq<T>, n: nat)
    requires n < |s|
    ensures s[..n + 1] == s[..n] + [s[n]]
  {
  }

  lemma ProtocolExtend(ms: seq<Message>, n: nat)
    requires n < |ms|
    ensures Protocol(ms[..n + 1]) == if ms[n].Console? then Protocol(ms[..n]) else Protocol(ms[..n]) + [ms[n]]
    ensures Protocol(ms[..n + 1]) <= Protocol(ms)
  {
    assert ms[..n + 1][..n] == ms[..n];
    ProtocolPrefix(ms, n + 1);
  }

  lemma PrefixAt<T>(s: seq<T>, n: nat, p: seq<T>)
    requires n <= |s| && p <= s[..n]
    ensures forall i :: 0 <= i < |p| ==> p[i] == s[i]
  {
  }

  /** The next message on the port is console output or the next line of the script. */
  lemma NextOnPort(a: Handled, s: System)
    requires PortInv(a, s) && s.delivered < |s.posted|
    ensures var m, t := s.posted[s.delivered], s.(delivered := s.delivered + 1);
            && (m.Console? ==> Seen(t) == Seen(s))
            && (!m.Console? ==> Seen(s) < |Script(a)| && m == Script(a)[Seen(s)] && Seen(t) == Seen(s) + 1)
  {
    ProtocolExtend(s.posted, s.delivered);
    PrefixAt(Script(a), s.sent, Protocol(s.posted[..s.delivered + 1]));
  }

  /** A relayed chunk appends exactly the next chunk the worker read. */
  lemma ChunkKeepsStream(a: Handled, k: nat, c: Client)
    requires a.Streamed? && 1 <= k <= |a.chunks|
    requires StreamInv(a, k, Relaying, c)
    ensures StreamInv(a, k + 1, Relaying, Relay(c, Base64.Encode(a.chunks[k - 1])))
  {
    Base64.BodyIdentity(a.chunks[k - 1]);
    assert a.chunks[..k][..k - 1] == a.chunks[..k - 1];
    assert Flatten(a.chunks[..k]) == Flatten(a.chunks[..k - 1]) + a.chunks[k - 1];
  }

  lemma RelayingKeepsStream(a: Handled, k: nat, c: Client)
    requires 0 < k < |Script(a)|
    requires StreamInv(a, k, Relaying, c)
    ensures StreamInv(a, k + 1, Relaying, ClientNext(Relaying, c, Arrived(Script(a)[k])))
  {
    ScriptShape(a, k);
    if Script(a)[k].StreamChunk? {
      ChunkKeepsStream(a, k, c);
    } else {
      EndKeepsStream(a, k, c);
    }
  }

  /** Whatever is not a chunk can only end the stream. */
  lemma EndKeepsStream(a: Handled, k: nat, c: Client)
    requires 0 < k < |Script(a)| && !Script(a)[k].StreamChunk?
    requires StreamInv(a, k, Relaying, c)
    ensures StreamInv(a, k + 1, Relaying, ClientNext(Relaying, c, Arrived(Script(a)[k])))
  {
    ScriptShape(a, k);
    assert Chunks(a)[..|Chunks(a)|] == Chunks(a);
  }

  lemma ArrivalKeepsStream(a: Handled, k: nat, l: Life, c: Client)
    requires k < |Script(a)|
    requires StreamInv(a, k, l.handler, c) && LifeInv(a, k, l)
    ensures var e := Arrived(Script(a)[k]);
            StreamInv(a, k + 1, LifeNext(l, e).handler, ClientNext(l.handler, c, e))
  {
    ScriptShape(a, k);
    match l.handler {
      case AwaitReply => assert Chunks(a)[..0] == [];
      case Relaying => RelayingKeepsStream(a, k, c);
      case Background => assert Chunks(a) == [];
    }
  }

  lemma ArrivalKeepsLife(a: Handled, k: nat, l: Life)
    requires k < |Script(a)| && LifeInv(a, k, l) && !l.terminated
    ensures LifeInv(a, k + 1, LifeNext(l, Arrived(Script(a)[k])))
  {
    ScriptShape(a, k);
  }

  lemma ConsoleKeepsInv(a: Handled, k: nat, h: Host, entry: LogEntry)
    requires HostInv(a, k, h)
    ensures HostInv(a, k, React(h, Arrived(Console(entry))))
  {
    assert LifeNext(h.life, Arrived(Console(entry))) == h.life;
    assert ClientNext(h.life.handler, h.client, Arrived(Console(entry))) == h.client;
  }

  lemma DeliverKeepsInv(a: Handled, s: System)
    requires Inv(a, s) && s.delivered < |s.posted| && !s.host.life.terminated
    ensures Inv(a, Next(a, s, Deliver))
  {
    var m, k := s.posted[s.delivered], Seen(s);
    NextOnPort(a, s);
    if m.Console? {
      ConsoleKeepsInv(a, k, s.host, m.entry);
    } else {
      ArrivalKeepsStream(a, k, s.host.life, s.host.client);
      ArrivalKeepsLife(a, k, s.host.life);
    }
  }

  lemma EventKeepsStream(a: Handled, k: nat, l: Life, c: Client, e: Event)
    requires StreamInv(a, k, l.handler, c) && !e.Arrived?
    ensures StreamInv(a, k, LifeNext(l, e).handler, ClientNext(l.handler, c, e))
  {
  }

  lemma EventKeepsLife(a: Handled, k: nat, l: Life, e: Event)
    requires LifeInv(a, k, l) && !e.Arrived?
    requires e.ExecTimer? ==> l.execArmed
    requires e.BgTimer? ==> l.bgArmed
    ensures LifeInv(a, k, LifeNext(l, e))
  {
  }

  lemma EventKeepsInv(a: Handled, s: System, e: Event)
    requires Inv(a, s) && !e.Arrived?
    requires e.ExecTimer? ==> s.host.life.execArmed
    requires e.BgTimer? ==> s.host.life.bgArmed
    ensures Inv(a, s.(host := React(s.host, e)))
  {
    EventKeepsStream(a, Seen(s), s.host.life, s.host.client, e);
    EventKeepsLife(a, Seen(s), s.host.life, e);
  }

  lemma PostKeepsInv(a: Handled, s: System, m: Message, sent: nat)
    requires Inv(a, s)
    requires sent == (if m.Console? then s.sent else s.sent + 1)
    requires !m.Console? ==> s.sent < |Script(a)| && m == Script(a)[s.sent]
    ensures Inv(a, s.(posted := s.posted + [m], sent := sent))
  {
    PostKeepsPort(a, s, m, sent);
  }

  lemma NextKeepsInv(a: Handled, s: System, act: Action)
    requires Inv(a, s)
    ensures Inv(a, Next(a, s, act))
  {
    match act {
      case Post =>
        if s.sent < |Script(a)| {
          ScriptShape(a, s.sent);
          PostKeepsInv(a, s, Script(a)[s.sent], s.sent + 1);
        }
      case Log(entry) => PostKeepsInv(a, s, Console(entry), s.sent);
      case Deliver =>
        if s.delivered < |s.posted| && !s.host.life.terminated { DeliverKeepsInv(a, s); }
      case FireExec =>
        if s.host.life.execArmed { EventKeepsInv(a, s, ExecTimer); }
      case FireBg =>
        if s.host.life.bgArmed { EventKeepsInv(a, s, BgTimer); }
      case Crash(reason) => EventKeepsInv(a, s, WorkerError(reason));
      case Cancel => EventKeepsInv(a, s, ClientCancel);
    }
  }

  lemma {:induction false} RunInv(a: Handled, acts: seq<Action>)
    ensures Inv(a, Run(a, acts))
  {
    if acts == [] {
      InvAtStart(a);
    } else {
      RunInv(a, acts[..|acts| - 1]);
      NextKeepsInv(a, Run(a, acts[..|acts| - 1]), acts[|acts| - 1]);
    }
  }

  // ---------- what holds of every run ----------

  lemma RelayedPrefix(a: Handled, seen: nat, sent: nat)
    requires seen <= sent
    ensures Flatten(Chunks(a)[..Relayed(a, seen)]) <= Flatten(Chunks(a)[..Relayed(a, sent)]) <= Flatten(Chunks(a))
  {
    var n, m := Relayed(a, seen), Relayed(a, sent);
    FlattenMonotone(Chunks(a), m);
    FlattenMonotone(Chunks(a)[..m], n);
    assert Chunks(a)[..m][..n] == Chunks(a)[..n];
  }

  /** In every reachable state the client has received a prefix of the bytes the worker read,
      all of them once the stream was closed normally with the client still attached; the
      writer is closed or aborted at most once. */
  lemma {:induction false} StreamFidelity(a: Handled, acts: seq<Action>)
    ensures var s := Run(a, acts);
            && s.host.client.written <= Flatten(Chunks(a)[..Relayed(a, s.sent)]) <= Flatten(Chunks(a))
            && (s.host.client.sink.Closed? && !s.host.client.cancelled ==> s.host.client.written == Flatten(Chunks(a)))
            && (s.host.client.sink.Closed? ==> !(a.Streamed? && a.ending.Broken?))
            && s.host.client.closings == (if s.host.client.sink.Closed? || s.host.client.sink.Aborted? then 1 else 0)
  {
    var s := Run(a, acts);
    RunInv(a, acts);
    ProtocolPrefix(s.posted, s.delivered);
    RelayedPrefix(a, Seen(s), s.sent);
  }

  /** Nothing reaches a client after it has hung up, however the run goes on. */
  lemma {:induction false} NothingAfterCancel(a: Handled, acts: seq<Action>, more: seq<Action>)
    ensures var s := Run(a, acts + [Cancel] + more);
            s.host.client.cancelled && s.host.client.written == Run(a, acts).host.client.written
  {
    var all := acts + [Cancel] + more;
    if more == [] {
      OneMore(a, acts, Cancel);
      assert all == acts + [Cancel];
    } else {
      var init, last := acts + [Cancel] + more[..|more| - 1], more[|more| - 1];
      NothingAfterCancel(a, acts, more[..|more| - 1]);
      OneMore(a, init, last);
      assert all == init + [last];
    }
  }

  lemma OneMore(a: Handled, acts: seq<Action>, act: Action)
    ensures var s, t := Run(a, acts).host.client, Run(a, acts + [act]).host.client;
            (act.Cancel? || s.cancelled) ==> t.cancelled && t.written == s.written
  {
    assert (acts + [act])[..|acts|] == acts;
    if Run(a, acts).host.client.cancelled {
      CancelledStays(a, Run(a, acts), act);
    }
  }

  lemma CancelledStays(a: Handled, s: System, act: Action)
    requires s.host.client.cancelled
    ensures Next(a, s, act).host.client.cancelled && Next(a, s, act).host.client.written == s.host.client.written
  {
  }

  /** The host has ended the worker or will do so when a timer fires. */
  predicate Watched(h: Host) {
    h.life.terminated || h.life.execArmed || h.life.bgArmed
  }

  /** Whatever ends the worker, the client is not left waiting: once it is terminated the stream is
      closed or aborted, if there is one. */
  ghost predicate ReleasedInv(h: Host) {
    && (h.life.terminated ==> !h.client.sink.Open?)
    && (h.client.sink.Open? ==> h.life.handler.Relaying?)
    && (h.life.execArmed ==> !h.life.responded)
    && (h.life.responded <==> !h.life.handler.AwaitReply?)
  }

  lemma ReactReleases(h: Host, e: Event)
    requires ReleasedInv(h)
    requires e.Arrived? ==> !h.life.terminated
    requires e.ExecTimer? ==> h.life.execArmed
    ensures ReleasedInv(React(h, e))
  {
  }

  lemma NextReleases(a: Handled, s: System, act: Action)
    requires ReleasedInv(s.host)
    ensures ReleasedInv(Next(a, s, act).host)
  {
    match act {
      case Deliver =>
        if s.delivered < |s.posted| && !s.host.life.terminated { ReactReleases(s.host, Arrived(s.posted[s.delivered])); }
      case FireExec =>
        if s.host.life.execArmed { ReactReleases(s.host, ExecTimer); }
      case FireBg => ReactReleases(s.host, BgTimer);
      case Crash(reason) => ReactReleases(s.host, WorkerError(reason));
      case Cancel => ReactReleases(s.host, ClientCancel);
      case _ =>
    }
  }

  lemma {:induction false} RunReleases(a: Handled, acts: seq<Action>)
    ensures ReleasedInv(Run(a, acts).host)
  {
    if acts != [] {
      RunReleases(a, acts[..|acts| - 1]);
      NextReleases(a, Run(a, acts[..|acts| - 1]), acts[|acts| - 1]);
    }
  }

  /** A terminated worker leaves no stream open. */
  lemma TerminatedMeansReleased(a: Handled, acts: seq<Action>)
    ensures Run(a, acts).host.life.terminated ==> !Run(a, acts).host.client.sink.Open?
  {
    RunReleases(a, acts);
  }

  /** How an open stream ends, action by action: the background timer and a worker error abort it
      with their own reason, the next message with the reader's reason or not at all, and nothing
      else touches it. */
  lemma StreamEndsWith(a: Handled, acts: seq<Action>, act: Action)
    requires Run(a, acts).host.client.sink.Open?
    ensures var s := Run(a, acts); var sink := Next(a, s, act).host.client.sink;
            match act
            case FireBg => sink == if s.host.life.bgArmed then Aborted("stream timeout") else Open
            case Crash(_) => sink == Aborted("worker error")
            case Deliver =>
              if s.delivered >= |s.posted| then sink == Open
              else
                (match s.posted[s.delivered]
                 case StreamEnd => sink == Closed
                 case Done => sink == Closed
                 case StreamError(reason) => sink == Aborted(if reason == "" then "stream error" else reason)
                 case _ => sink == Open)
            case _ => sink == Open
  {
    RunReleases(a, acts);
  }

  /** Nothing watches the worker any more: it runs, has not failed, and no timer is armed. */
  predicate Unattended(h: Host) {
    !h.life.terminated && !h.life.errored && !h.life.execArmed && !h.life.bgArmed
  }

  /** A worker that has reported no error loses its watchdog in exactly one situation: its stream
      ended normally and the final `done` is still outstanding. One that has reported an error loses
      it in that situation too, and as long as it has not answered. A worker that answers and whose
      script was seen to the end is terminated. */
  lemma LifecycleSafety(a: Handled, acts: seq<Action>)
    ensures var s := Run(a, acts);
            && s.delivered <= |s.posted|
            && (Unattended(s.host) <==>
                  a.Streamed? && a.ending.Clean? && Seen(s) == |a.chunks| + 2 && !s.host.life.terminated && !s.host.life.errored)
            && (!Watched(s.host) <==>
                  || Unattended(s.host)
                  || (s.host.life.errored && !s.host.life.terminated
                      && (!s.host.life.responded || (a.Streamed? && a.ending.Clean? && Seen(s) == |a.chunks| + 2))))
            && (Seen(s) == |Script(a)| && !a.ThrewNull? ==> s.host.life.terminated)
            && (s.host.life.terminated ==> !s.host.life.execArmed && !s.host.life.bgArmed)
  {
    RunInv(a, acts);
  }

  /** The unattended situation is reachable. */
  lemma UnattendedExample(a: Handled)
    requires a == Streamed(200, map[], [], Clean)
    ensures Unattended(Run(a, [Post, Deliver, Post, Deliver]).host)
  {
    var s1 := Next(a, Start, Post);
    var s2 := Next(a, s1, Deliver);
    var s3 := Next(a, s2, Post);
    var s4 := Next(a, s3, Deliver);
    assert [Post, Deliver, Post, Deliver][..3] == [Post, Deliver, Post];
    assert [Post, Deliver, Post][..2] == [Post, Deliver];
    assert [Post, Deliver][..1] == [Post];
    assert [Post][..0] == [];
    assert Run(a, [Post]) == s1;
    assert Run(a, [Post, Deliver]) == s2;
    assert Run(a, [Post, Deliver, Post]) == s3;
    assert s1.posted[0] == Script(a)[0] == StreamStart(200, map[]);
    assert s3.posted[1] == Script(a)[1] == StreamEnd;
  }

  // ---------- settling the result promise ----------

  function First(attempts: seq<Outcome>): Option<Outcome> {
    if attempts == [] then None else Some(attempts[0])
  }

  /** How often `resolve` was called. */
  function ResolveCalls(attempts: seq<Outcome>): nat {
    if attempts == [] then 0
    else ResolveCalls(attempts[..|attempts| - 1]) + if attempts[|attempts| - 1].Resolved? then 1 else 0
  }

  /** The flag and the handler swap stop all further calls once a reply was taken. */
  ghost predicate SettleInv(l: Life) {
    && (l.responded <==> !l.handler.AwaitReply?)
    && (l.execArmed ==> l.attempts == [])
    && l.outcome == First(l.attempts)
    && ResolveCalls(l.attempts) == (if l.responded then 1 else 0)
    && (forall i :: 0 <= i < |l.attempts| && l.attempts[i].Resolved? ==> l.responded && i == |l.attempts| - 1)
    && (forall i :: 0 <= i < |l.attempts| && l.attempts[i].TimedOut? ==> l.terminated && !l.responded && i == 0)
  }

  lemma AttemptKeepsSettle(l: Life, o: Outcome)
    requires l.outcome == First(l.attempts)
    ensures var t := Attempt(l, o);
            && t.outcome == First(t.attempts)
            && ResolveCalls(t.attempts) == ResolveCalls(l.attempts) + (if o.Resolved? then 1 else 0)
  {
    assert (l.attempts + [o])[..|l.attempts|] == l.attempts;
  }

  lemma ReplyKeepsSettle(l: Life, next: Handler, m: Message)
    requires SettleInv(l) && l.handler.AwaitReply? && !next.AwaitReply? && !l.terminated
    ensures SettleInv(Attempt(l.(handler := next, responded := true, execArmed := false, bgArmed := true), Resolved(m)))
  {
    AttemptKeepsSettle(l, Resolved(m));
  }

  lemma RejectKeepsSettle(l: Life, o: Outcome, terminated: bool, errored: bool)
    requires SettleInv(l) && l.handler.AwaitReply? && (l.terminated ==> terminated)
    requires o.Crashed? || (o.TimedOut? && l.execArmed && terminated)
    ensures SettleInv(Attempt(l.(execArmed := false, terminated := terminated, errored := errored), o))
  {
    AttemptKeepsSettle(l, o);
  }

  lemma OthersKeepSettle(l: Life, t: Life)
    requires SettleInv(l) && t.attempts == l.attempts && t.outcome == l.outcome && t.responded == l.responded
    requires (t.handler.AwaitReply? <==> l.handler.AwaitReply?) && (t.execArmed ==> l.execArmed) && (l.terminated ==> t.terminated)
    ensures SettleInv(t)
  {
  }

  lemma ErrorKeepsSettle(l: Life, reason: string)
    requires SettleInv(l)
    ensures SettleInv(LifeNext(l, WorkerError(reason)))
  {
    if l.handler.AwaitReply? {
      RejectKeepsSettle(l, Crashed(reason), l.terminated, true);
      assert LifeNext(l, WorkerError(reason)) ==
             Attempt(l.(execArmed := false, terminated := l.terminated, errored := true), Crashed(reason));
    } else {
      OthersKeepSettle(l, LifeNext(l, WorkerError(reason)));
    }
  }

  lemma ArrivalKeepsSettle(l: Life, m: Message)
    requires SettleInv(l) && !l.terminated
    ensures SettleInv(LifeNext(l, Arrived(m)))
  {
    if l.handler.AwaitReply? && IsReply(m) {
      ReplyKeepsSettle(l, if m.StreamStart? then Relaying else Background, m);
    } else {
      OthersKeepSettle(l, LifeNext(l, Arrived(m)));
    }
  }

  lemma TimerKeepsSettle(l: Life)
    requires SettleInv(l)
    ensures l.execArmed ==> SettleInv(LifeNext(l, ExecTimer))
    ensures SettleInv(LifeNext(l, BgTimer))
  {
    OthersKeepSettle(l, LifeNext(l, BgTimer));
    if l.execArmed {
      ArmedMeansWaiting(l);
      RejectKeepsSettle(l, TimedOut, true, l.errored);
      assert LifeNext(l, ExecTimer) == Attempt(l.(execArmed := false, terminated := true, errored := l.errored), TimedOut);
    }
  }

  lemma ArmedMeansWaiting(l: Life)
    requires SettleInv(l) && l.execArmed
    ensures l.handler.AwaitReply?
  {
  }

  lemma NextKeepsSettle(a: Handled, s: System, act: Action)
    requires SettleInv(s.host.life)
    ensures SettleInv(Next(a, s, act).host.life)
    ensures s.host.life.attempts <= Next(a, s, act).host.life.attempts
  {
    var l := s.host.life;
    match act {
      case Deliver =>
        if s.delivered < |s.posted| && !l.terminated { ArrivalKeepsSettle(l, s.posted[s.delivered]); }
      case FireExec =>
        TimerKeepsSettle(l);
      case FireBg =>
        TimerKeepsSettle(l);
      case Crash(reason) => ErrorKeepsSettle(l, reason);
      case _ =>
    }
  }

  lemma {:induction false} RunSettles(a: Handled, acts: seq<Action>)
    ensures SettleInv(Run(a, acts).host.life)
  {
    if acts != [] {
      RunSettles(a, acts[..|acts| - 1]);
      NextKeepsSettle(a, Run(a, acts[..|acts| - 1]), acts[|acts| - 1]);
    }
  }

  /** `resolve` is called at most once in a run, exactly when a reply was taken, and is the last
      call. A call after the first is a worker error before any reply, or the reply that follows
      such an error: no two timeouts, no timeout after a reply and no reply after a timeout. */
  lemma SettledOnce(a: Handled, acts: seq<Action>)
    ensures var l := Run(a, acts).host.life;
            && ResolveCalls(l.attempts) == (if l.responded then 1 else 0)
            && l.outcome == First(l.attempts)
            && (forall i :: 0 <= i < |l.attempts| && l.attempts[i].Resolved? ==> i == |l.attempts| - 1)
            && (forall i :: 0 < i < |l.attempts| ==>
                  l.attempts[i].Crashed? || (l.attempts[i].Resolved? && l.attempts[0].Crashed?))
  {
    RunSettles(a, acts);
  }

  /** How many worker errors came before any reply was taken. */
  function EarlyCrashes(a: Handled, acts: seq<Action>): nat {
    if acts == [] then 0
    else
      var init, last := acts[..|acts| - 1], acts[|acts| - 1];
      EarlyCrashes(a, init) + if last.Crash? && !Run(a, init).host.life.responded then 1 else 0
  }

  predicate TimedOutFirst(attempts: seq<Outcome>) {
    attempts != [] && attempts[0].TimedOut?
  }

  predicate Tally(l: Life, early: nat) {
    |l.attempts| == early + (if l.responded then 1 else 0) + (if TimedOutFirst(l.attempts) then 1 else 0)
  }

  lemma LifeTally(l: Life, e: Event, early: nat)
    requires SettleInv(l) && Tally(l, early)
    requires e.Arrived? ==> !l.terminated
    requires e.ExecTimer? ==> l.execArmed
    ensures Tally(LifeNext(l, e), early + if e.WorkerError? && !l.responded then 1 else 0)
  {
  }

  lemma NextTally(a: Handled, s: System, act: Action, early: nat)
    requires SettleInv(s.host.life) && Tally(s.host.life, early)
    ensures Tally(Next(a, s, act).host.life, early + if act.Crash? && !s.host.life.responded then 1 else 0)
  {
    var l := s.host.life;
    match act {
      case Deliver =>
        if s.delivered < |s.posted| && !l.terminated { LifeTally(l, Arrived(s.posted[s.delivered]), early); }
      case FireExec =>
        if l.execArmed { LifeTally(l, ExecTimer, early); }
      case FireBg => LifeTally(l, BgTimer, early);
      case Crash(reason) => LifeTally(l, WorkerError(reason), early);
      case _ =>
    }
  }

  /** Every early error, the reply and the timeout make one call each. */
  lemma {:induction false} AttemptsCounted(a: Handled, acts: seq<Action>)
    ensures Tally(Run(a, acts).host.life, EarlyCrashes(a, acts))
  {
    if acts != [] {
      var init := acts[..|acts| - 1];
      AttemptsCounted(a, init);
      RunSettles(a, init);
      NextTally(a, Run(a, init), acts[|acts| - 1], EarlyCrashes(a, init));
    }
  }

  /** A run settles the promise at most once if and only if no worker error came before a reply, or
      just one did, it was the first to settle the promise and no reply was taken after it. */
  lemma SettledOnceIff(a: Handled, acts: seq<Action>)
    ensures var l, early := Run(a, acts).host.life, EarlyCrashes(a, acts);
            |l.attempts| <= 1 <==>
            early == 0 || (early == 1 && !l.responded && l.outcome.Some? && l.outcome.value.Crashed?)
  {
    AttemptsCounted(a, acts);
    RunSettles(a, acts);
  }

  predicate NoCrash(attempts: seq<Outcome>) {
    forall i :: 0 <= i < |attempts| ==> !attempts[i].Crashed?
  }

  lemma NextWithoutCrash(a: Handled, s: System, act: Action)
    requires NoCrash(s.host.life.attempts) && !act.Crash?
    ensures NoCrash(Next(a, s, act).host.life.attempts)
  {
  }

  lemma {:induction false} RunWithoutCrash(a: Handled, acts: seq<Action>)
    requires forall i :: 0 <= i < |acts| ==> !acts[i].Crash?
    ensures NoCrash(Run(a, acts).host.life.attempts)
  {
    if acts != [] {
      var init := acts[..|acts| - 1];
      assert forall i :: 0 <= i < |init| ==> init[i] == acts[i];
      RunWithoutCrash(a, init);
      NextWithoutCrash(a, Run(a, init), acts[|acts| - 1]);
    }
  }

  /** Without a worker error nothing is settled twice. */
  lemma SettledOnceWithoutCrash(a: Handled, acts: seq<Action>)
    requires forall i :: 0 <= i < |acts| ==> !acts[i].Crash?
    ensures |Run(a, acts).host.life.attempts| <= 1
  {
    RunWithoutCrash(a, acts);
    SettledOnce(a, acts);
  }

  /** A worker that reports an error and still answers settles twice; the error stands. */
  lemma CrashThenReply(a: Handled, reason: string)
    requires a.Buffered?
    ensures var l := Run(a, [Crash(reason), Post, Deliver]).host.life;
            l.attempts == [Crashed(reason), Resolved(Script(a)[0])] && l.outcome == Some(Crashed(reason))
  {
    var s1 := Next(a, Start, Crash(reason));
    var s2 := Next(a, s1, Post);
    RunSnoc(a, [], Crash(reason));
    assert [] + [Crash(reason)] == [Crash(reason)];
    RunSnoc(a, [Crash(reason)], Post);
    assert [Crash(reason)] + [Post] == [Crash(reason), Post];
    RunSnoc(a, [Crash(reason), Post], Deliver);
    assert [Crash(reason), Post] + [Deliver] == [Crash(reason), Post, Deliver];
    assert s2.posted == [Script(a)[0]];
    DeliveredReply(a, s2);
  }

  lemma RunSnoc(a: Handled, acts: seq<Action>, act: Action)
    ensures Run(a, acts + [act]) == Next(a, Run(a, acts), act)
  {
    assert (acts + [act])[..|acts|] == acts;
  }

  lemma DeliveredReply(a: Handled, s: System)
    requires s.delivered == 0 && |s.posted| == 1 && IsReply(s.posted[0])
    requires s.host.life.handler.AwaitReply? && !s.host.life.terminated
    ensures Next(a, s, Deliver).host.life.attempts == s.host.life.attempts + [Resolved(s.posted[0])]
    ensures s.host.life.outcome.Some? ==> Next(a, s, Deliver).host.life.outcome == s.host.life.outcome
  {
  }

  /** What the caller got stays, however the run goes on: later calls only come after it. */
  lemma {:induction false} OutcomeIsFinal(a: Handled, acts: seq<Action>, n: nat)
    requires n <= |acts|
    ensures Run(a, acts[..n]).host.life.attempts <= Run(a, acts).host.life.attempts
    ensures Run(a, acts[..n]).host.life.outcome.Some? ==> Run(a, acts).host.life.outcome == Run(a, acts[..n]).host.life.outcome
    decreases |acts|
  {
    RunSettles(a, acts);
    RunSettles(a, acts[..n]);
    if n == |acts| {
      assert acts[..n] == acts;
    } else {
      var init := acts[..|acts| - 1];
      assert init[..n] == acts[..n];
      OutcomeIsFinal(a, init, n);
      RunSettles(a, init);
      NextKeepsSettle(a, Run(a, init), acts[|acts| - 1]);
    }
  }

  /** A worker whose code threw null never answers, and its `done` is ignored: the caller gets a
      crash or the timeout. */
  lemma ThrewNullNeverAnswers(a: Handled, acts: seq<Action>)
    requires a.ThrewNull?
    ensures var l := Run(a, acts).host.life;
            l.handler.AwaitReply? && !l.bgArmed && (l.outcome.Some? ==> !l.outcome.value.Resolved?)
  {
    RunInv(a, acts);
    RunSettles(a, acts);
  }

  /** The caller waits exactly while no reply, crash or timeout happened, and a reply it gets
      is the worker's first protocol message. */
  lemma {:induction false} OutcomeMeaning(a: Handled, acts: seq<Action>)
    ensures var h := Run(a, acts).host;
            && (h.life.outcome.None? <==> !h.life.responded && !h.life.errored && !h.life.terminated)
            && (h.life.outcome.Some? && h.life.outcome.value.Resolved? ==> h.life.outcome.value.reply == Script(a)[0])
  {
    RunInv(a, acts);
  }

  /** A buffered body that reaches the caller decodes to the bytes the user's function returned. */
  lemma BufferedBodyEndToEnd(a: Handled, acts: seq<Action>, r: Reply)
    requires Run(a, acts).host.life.outcome == Some(Resolved(Success(r)))
    ensures a.Buffered? && r.status == a.status && r.headers == a.headers
    ensures Base64.DecodedBytes(r.bodyBase64) == Some(a.body)
  {
    OutcomeMeaning(a, acts);
    ScriptShape(a, 0);
    Base64.BodyIdentity(a.body);
  }

  // ---------- an undisturbed run delivers everything ----------

  predicate Disturbs(act: Action) {
    act.FireExec? || act.FireBg? || act.Crash? || act.Cancel?
  }

  ghost predicate Calm(a: Handled, h: Host) {
    && !h.client.cancelled && !h.life.errored
    && !h.client.sink.Aborted?
    && (h.life.outcome.Some? ==> h.life.outcome.value.Resolved?)
  }

  lemma CalmArrival(a: Handled, k: nat, h: Host)
    requires !(a.Streamed? && a.ending.Broken?)
    requires Calm(a, h) && k < |Script(a)|
    ensures Calm(a, React(h, Arrived(Script(a)[k])))
  {
    ScriptShape(a, k);
  }

  lemma CalmStep(a: Handled, s: System, act: Action)
    requires !(a.Streamed? && a.ending.Broken?)
    requires PortInv(a, s) && Calm(a, s.host) && !Disturbs(act)
    ensures Calm(a, Next(a, s, act).host)
  {
    if act.Deliver? && s.delivered < |s.posted| {
      NextOnPort(a, s);
      if s.posted[s.delivered].Console? {
        CalmConsole(a, s.host, s.posted[s.delivered].entry);
      } else {
        CalmArrival(a, Seen(s), s.host);
      }
    }
  }

  lemma CalmConsole(a: Handled, h: Host, entry: LogEntry)
    requires Calm(a, h)
    ensures Calm(a, React(h, Arrived(Console(entry))))
  {
  }

  lemma {:induction false} CalmRun(a: Handled, acts: seq<Action>)
    requires !(a.Streamed? && a.ending.Broken?)
    requires forall i :: 0 <= i < |acts| ==> !Disturbs(acts[i])
    ensures Calm(a, Run(a, acts).host)
  {
    if acts != [] {
      var init := acts[..|acts| - 1];
      CalmRun(a, init);
      RunInv(a, init);
      CalmStep(a, Run(a, init), acts[|acts| - 1]);
    }
  }

  /** If no timer fires, nothing crashes and the client stays, then once the whole script of a
      clean stream has been seen the client has every byte and the stream was closed normally. */
  lemma UndisturbedStreamCompletes(a: Handled, acts: seq<Action>)
    requires a.Streamed? && a.ending.Clean?
    requires forall i :: 0 <= i < |acts| ==> !Disturbs(acts[i])
    requires Run(a, acts).delivered <= |Run(a, acts).posted| && Seen(Run(a, acts)) == |Script(a)|
    ensures var h := Run(a, acts).host;
            && h.client.sink == Closed && h.client.written == Flatten(a.chunks) && h.life.terminated
            && h.life.outcome == Some(Resolved(StreamStart(a.status, a.headers)))
  {
    RunInv(a, acts);
    CalmRun(a, acts);
    ScriptShape(a, 0);
  }

  /** The client's side of an undisturbed stream, by how many protocol messages were seen. */
  predicate CalmClient(a: Handled, k: nat, c: Client)
    requires a.Streamed?
  {
    && !c.cancelled
    && if k == 0 then c.sink.Absent? && c.written == []
       else if k <= |a.chunks| + 1 then c.sink.Open? && c.written == Flatten(a.chunks[..k - 1])
       else c.written == Flatten(a.chunks)
            && c.sink == match a.ending
                         case Clean => Closed
                         case Broken(reason) => Aborted(if reason == "" then "stream error" else reason)
  }

  lemma CalmClientArrival(a: Handled, k: nat, l: Life, c: Client)
    requires a.Streamed? && k < |Script(a)| && CalmClient(a, k, c) && LifeInv(a, k, l) && !l.terminated
    ensures CalmClient(a, k + 1, ClientNext(l.handler, c, Arrived(Script(a)[k])))
  {
    StreamScript(a, k);
    if k == 0 {
      assert a.chunks[..0] == [];
    } else if k <= |a.chunks| {
      CalmChunk(a, k, c);
    } else {
      assert a.chunks[..|a.chunks|] == a.chunks;
    }
  }

  lemma CalmChunk(a: Handled, k: nat, c: Client)
    requires a.Streamed? && 0 < k <= |a.chunks| && CalmClient(a, k, c)
    ensures CalmClient(a, k + 1, Relay(c, Base64.Encode(a.chunks[k - 1])))
  {
    Base64.BodyIdentity(a.chunks[k - 1]);
    assert a.chunks[..k][..k - 1] == a.chunks[..k - 1];
  }

  lemma CalmClientStep(a: Handled, s: System, act: Action)
    requires a.Streamed? && Inv(a, s) && CalmClient(a, Seen(s), s.host.client) && !Disturbs(act)
    ensures Inv(a, Next(a, s, act)) && CalmClient(a, Seen(Next(a, s, act)), Next(a, s, act).host.client)
  {
    NextKeepsInv(a, s, act);
    match act {
      case Post =>
        if s.sent < |Script(a)| {
          ScriptShape(a, s.sent);
          PostKeepsPort(a, s, Script(a)[s.sent], s.sent + 1);
        }
      case Log(entry) => PostKeepsPort(a, s, Console(entry), s.sent);
      case Deliver => CalmDelivery(a, s);
      case _ =>
    }
  }

  lemma CalmDelivery(a: Handled, s: System)
    requires a.Streamed? && Inv(a, s) && CalmClient(a, Seen(s), s.host.client)
    requires Inv(a, Next(a, s, Deliver))
    ensures CalmClient(a, Seen(Next(a, s, Deliver)), Next(a, s, Deliver).host.client)
  {
    if s.delivered < |s.posted| && !s.host.life.terminated {
      NextOnPort(a, s);
      if !s.posted[s.delivered].Console? {
        CalmClientArrival(a, Seen(s), s.host.life, s.host.client);
      }
    }
  }

  /** If no timer fires, nothing crashes and the client stays, the client has at every moment exactly
      the chunks that were relayed; a clean stream ends closed, a broken one aborted with the
      reader's reason, and in both cases every chunk that was read has arrived. */
  lemma {:induction false} CalmStream(a: Handled, acts: seq<Action>)
    requires a.Streamed? && forall i :: 0 <= i < |acts| ==> !Disturbs(acts[i])
    ensures var s := Run(a, acts); s.delivered <= |s.posted| && CalmClient(a, Seen(s), s.host.client)
  {
    RunInv(a, acts);
    if acts == [] {
      assert Start.posted[..0] == [];
    } else {
      var init := acts[..|acts| - 1];
      CalmStream(a, init);
      RunInv(a, init);
      CalmClientStep(a, Run(a, init), acts[|acts| - 1]);
    }
  }

  // ---------- collected logs ----------

  /** Index of the first reply, or the length when there is none. */
  function FirstReply(ms: seq<Message>): (i: nat)
    ensures i <= |ms|
    ensures i < |ms| ==> IsReply(ms[i])
    ensures forall j :: 0 <= j < i ==> !IsReply(ms[j])
  {
    if ms == [] then 0 else if IsReply(ms[0]) then 0 else 1 + FirstReply(ms[1..])
  }

  /** The delivered messages whose console output counts: all of them until, and not after,
      a non-streaming reply puts the background handler in charge. */
  function LogWindow(ms: seq<Message>): seq<Message> {
    Window(ms, FirstReply(ms))
  }

  function Window(ms: seq<Message>, reply: nat): seq<Message> {
    if reply < |ms| && !ms[reply].StreamStart? then ms[..reply] else ms
  }

  function ConsoleEntries(ms: seq<Message>): seq<LogEntry> {
    if ms == [] then []
    else
      var rest, m := ConsoleEntries(ms[..|ms| - 1]), ms[|ms| - 1];
      if m.Console? then rest + [Clip(m.entry)] else rest
  }

  function FirstEntries(es: seq<LogEntry>): seq<LogEntry> {
    if |es| <= MAX_LOG_ENTRIES then es else es[..MAX_LOG_ENTRIES]
  }

  ghost predicate LogInv(ms: seq<Message>, h: Host) {
    var i := FirstReply(ms);
    && (h.life.handler.AwaitReply? <==> i == |ms|)
    && (h.life.handler.Relaying? <==> i < |ms| && ms[i].StreamStart?)
    && h.logs == FirstEntries(ConsoleEntries(LogWindow(ms)))
  }

  lemma {:induction false} FirstReplyExtend(ms: seq<Message>, m: Message)
    ensures FirstReply(ms + [m]) ==
            if FirstReply(ms) < |ms| then FirstReply(ms) else if IsReply(m) then |ms| else |ms| + 1
  {
    if ms != [] {
      assert (ms + [m])[1..] == ms[1..] + [m];
      if !IsReply(ms[0]) {
        FirstReplyExtend(ms[1..], m);
      }
    }
  }

  lemma LogWindowExtend(ms: seq<Message>, m: Message)
    ensures LogWindow(ms + [m]) ==
            if FirstReply(ms) < |ms| && !ms[FirstReply(ms)].StreamStart? then LogWindow(ms)
            else if FirstReply(ms) == |ms| && (m.Success? || m.Failure?) then ms
            else ms + [m]
  {
    FirstReplyExtend(ms, m);
    WindowExtend(ms, m, FirstReply(ms), FirstReply(ms + [m]));
  }

  lemma WindowExtend(ms: seq<Message>, m: Message, i: nat, j: nat)
    requires i <= |ms| && j == if i < |ms| then i else if IsReply(m) then |ms| else |ms| + 1
    ensures Window(ms + [m], j) ==
            if i < |ms| && !ms[i].StreamStart? then Window(ms, i)
            else if i == |ms| && (m.Success? || m.Failure?) then ms
            else ms + [m]
  {
    assert (ms + [m])[..i] == ms[..i];
    assert ms[..|ms|] == ms;
  }

  lemma ConsoleEntriesExtend(ms: seq<Message>, m: Message)
    ensures ConsoleEntries(ms + [m]) == if m.Console? then ConsoleEntries(ms) + [Clip(m.entry)] else ConsoleEntries(ms)
  {
    assert (ms + [m])[..|ms|] == ms;
  }

  lemma RecordedEntries(es: seq<LogEntry>, entry: LogEntry)
    ensures Recorded(FirstEntries(es), entry) == FirstEntries(es + [Clip(entry)])
  {
  }

  lemma ArrivalKeepsHandlerShape(ms: seq<Message>, h: Host, m: Message)
    requires LogInv(ms, h)
    ensures var g, i := React(h, Arrived(m)), FirstReply(ms + [m]);
            && (g.life.handler.AwaitReply? <==> i == |ms| + 1)
            && (g.life.handler.Relaying? <==> i < |ms| + 1 && (ms + [m])[i].StreamStart?)
  {
    FirstReplyExtend(ms, m);
  }

  lemma ArrivalKeepsLogInv(ms: seq<Message>, h: Host, m: Message)
    requires LogInv(ms, h)
    ensures LogInv(ms + [m], React(h, Arrived(m)))
  {
    ArrivalKeepsHandlerShape(ms, h, m);
    LogWindowExtend(ms, m);
    ConsoleEntriesExtend(ms, m);
    if m.Console? {
      RecordedEntries(ConsoleEntries(ms), m.entry);
    }
  }

  lemma OtherActionsKeepLogInv(a: Handled, s: System, act: Action)
    requires s.delivered <= |s.posted| && LogInv(s.posted[..s.delivered], s.host)
    requires Next(a, s, act).delivered == s.delivered
    ensures s.posted[..s.delivered] == Next(a, s, act).posted[..s.delivered]
    ensures LogInv(s.posted[..s.delivered], Next(a, s, act).host)
  {
  }

  /** The collected logs are exactly the first hundred console messages (each clipped to 10000
      characters) delivered before a background handler took over, in order. */
  lemma {:induction false} CollectedLogs(a: Handled, acts: seq<Action>)
    ensures var s := Run(a, acts);
            && s.delivered <= |s.posted|
            && LogInv(s.posted[..s.delivered], s.host)
            && s.host.logs == FirstEntries(ConsoleEntries(LogWindow(s.posted[..s.delivered])))
  {
    if acts != [] {
      var init, act := acts[..|acts| - 1], acts[|acts| - 1];
      CollectedLogs(a, init);
      LogStep(a, Run(a, init), act);
    }
  }

  lemma LogStep(a: Handled, s: System, act: Action)
    requires s.delivered <= |s.posted| && LogInv(s.posted[..s.delivered], s.host)
    ensures var t := Next(a, s, act);
            t.delivered <= |t.posted| && LogInv(t.posted[..t.delivered], t.host)
  {
    var t := Next(a, s, act);
    if t.delivered == s.delivered {
      OtherActionsKeepLogInv(a, s, act);
    } else {
      assert t.posted[..t.delivered] == s.posted[..s.delivered] + [s.posted[s.delivered]];
      ArrivalKeepsLogInv(s.posted[..s.delivered], s.host, s.posted[s.delivered]);
    }
  }

  /** The console entries as they were posted. */
  function Posted(ms: seq<Message>): seq<LogEntry> {
    if ms == [] then []
    else Posted(ms[..|ms| - 1]) + if ms[|ms| - 1].Console? then [ms[|ms| - 1].entry] else []
  }

  lemma {:induction false} EntriesArePosted(ms: seq<Message>)
    ensures |ConsoleEntries(ms)| == |Posted(ms)|
    ensures forall i :: 0 <= i < |Posted(ms)| ==> Shortened(ConsoleEntries(ms)[i], Posted(ms)[i])
  {
    if ms != [] {
      EntriesArePosted(ms[..|ms| - 1]);
    }
  }

  /** The same entry with at most ten thousand characters of its message. */
  predicate Shortened(kept: LogEntry, posted: LogEntry) {
    && kept.level == posted.level && kept.timestamp == posted.timestamp
    && kept.message == if |posted.message| > 10_000 then posted.message[..10_000] else posted.message
  }

  /** In numbers: a hundred entries at most, in order, each cut after ten thousand characters. */
  lemma LogsInNumbers(a: Handled, acts: seq<Action>)
    ensures var s := Run(a, acts);
            && s.delivered <= |s.posted|
            && var posted := Posted(LogWindow(s.posted[..s.delivered]));
            && |s.host.logs| == (if |posted| > 100 then 100 else |posted|)
            && forall i :: 0 <= i < |s.host.logs| ==> Shortened(s.host.logs[i], posted[i])
  {
    CollectedLogs(a, acts);
    EntriesArePosted(LogWindow(Run(a, acts).posted[..Run(a, acts).delivered]));
  }

  /** What the caller of a run gets, by what the user's code did: its failure, its answer, or the
      head of its stream. */
  lemma RepliesAre(a: Handled, acts: seq<Action>)
    requires Run(a, acts).host.life.outcome.Some? && Run(a, acts).host.life.outcome.value.Resolved?
    ensures var reply := Run(a, acts).host.life.outcome.value.reply;
            match a
            case Threw(reason) => reply == Failure(reason)
            case ThrewNull => false
            case Buffered(status, headers, body) => reply == Success(Reply(status, headers, Base64.Encode(body)))
            case Streamed(status, headers, _, _) => reply == StreamStart(status, headers)
            case Locked(status, headers, _) => reply == StreamStart(status, headers)
  {
    OutcomeMeaning(a, acts);
    if a.ThrewNull? {
      ThrewNullNeverAnswers(a, acts);
    }
  }

  /** The other ways a run ends: the timer ends the worker and is reported, an error is reported with
      its reason, before any reply. */
  lemma EndsWithout(a: Handled, acts: seq<Action>, reason: string)
    requires Run(a, acts).host.life.outcome.None?
    ensures var t := Next(a, Run(a, acts), FireExec).host.life;
            t.terminated && t.outcome == Some(TimedOut) && !t.execArmed
    ensures var t := Next(a, Run(a, acts), Crash(reason)).host.life;
            t.outcome == Some(Crashed(reason)) && !t.execArmed
  {
    RunInv(a, acts);
    OutcomeTaken(a, Run(a, acts), reason);
  }

  lemma OutcomeTaken(a: Handled, s: System, reason: string)
    requires var l := s.host.life; l.handler.AwaitReply? && l.execArmed && l.outcome.None?
    ensures var t := Next(a, s, FireExec).host.life;
            t.terminated && t.outcome == Some(TimedOut) && !t.execArmed
    ensures var t := Next(a, s, Crash(reason)).host.life;
            t.outcome == Some(Crashed(reason)) && !t.execArmed
  {
  }

  /** After a reply: the background timer or the final message ends the worker. */
  lemma BackgroundEnds(a: Handled, acts: seq<Action>)
    requires Run(a, acts).host.life.responded && !Run(a, acts).host.life.terminated
    ensures var s := Run(a, acts);
            && !s.host.life.execArmed
            && (s.host.life.bgArmed ==> Next(a, s, FireBg).host.life.terminated)
            && (s.delivered < |s.posted| && s.posted[s.delivered].Done? ==> Next(a, s, Deliver).host.life.terminated)
            && (s.delivered < |s.posted| && s.posted[s.delivered].StreamError? ==> Next(a, s, Deliver).host.life.terminated)
            && forall reason :: Next(a, s, Crash(reason)).host.life.terminated
  {
    RunInv(a, acts);
    RunSettles(a, acts);
    if Run(a, acts).delivered < |Run(a, acts).posted| { TakesLast(a, Run(a, acts)); }
    TimerEnds(a, Run(a, acts));
  }

  lemma TimerEnds(a: Handled, s: System)
    requires s.host.life.responded && !s.host.life.handler.AwaitReply? && !s.host.life.terminated
    ensures s.host.life.bgArmed ==> Next(a, s, FireBg).host.life.terminated
    ensures forall reason :: Next(a, s, Crash(reason)).host.life.terminated
  {
  }

  lemma TakesLast(a: Handled, s: System)
    requires Inv(a, s) && s.host.life.responded && !s.host.life.terminated && s.delivered < |s.posted|
    ensures s.posted[s.delivered].Done? || s.posted[s.delivered].StreamError? ==> Next(a, s, Deliver).host.life.terminated
  {
    NextOnPort(a, s);
    if Seen(s) < |Script(a)| { ScriptShape(a, Seen(s)); }
  }

  /** What the user's code logs, in order. */
  function Logged(acts: seq<Action>): seq<LogEntry> {
    if acts == [] then []
    else Logged(acts[..|acts| - 1]) + if acts[|acts| - 1].Log? then [acts[|acts| - 1].entry] else []
  }

  /** Whatever the user's code logs goes on the port, in order, and no other entry does. */
  lemma {:induction false} LogsArePosted(a: Handled, acts: seq<Action>)
    ensures Posted(Run(a, acts).posted) == Logged(acts)
  {
    if acts != [] {
      LogsArePosted(a, acts[..|acts| - 1]);
      StepPosts(a, Run(a, acts[..|acts| - 1]), acts[|acts| - 1]);
    }
  }

  lemma StepPosts(a: Handled, s: System, act: Action)
    ensures Posted(Next(a, s, act).posted) == Posted(s.posted) + if act.Log? then [act.entry] else []
  {
    match act {
      case Post =>
        if s.sent < |Script(a)| {
          ScriptShape(a, s.sent);
          PostedSnoc(s.posted, Script(a)[s.sent]);
        }
      case Log(entry) => PostedSnoc(s.posted, Console(entry));
      case _ =>
    }
  }

  lemma PostedSnoc(ms: seq<Message>, m: Message)
    ensures Posted(ms + [m]) == Posted(ms) + if m.Console? then [m.entry] else []
  {
    assert (ms + [m])[..|ms|] == ms;
  }
}
