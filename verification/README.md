# Verified models of the Butterbase runtime and its engines

This project models the parts of Butterbase whose correctness depends on protocols, interleaving
or several functions agreeing with each other, and proves what they promise. Each module follows
one source file, or two that share an algorithm. `dafny verify dfyconfig.toml` checks everything.

How the models are built:

- Code that changes state step by step is a class or a method with loops, proved against a
  function of its inputs or its old state. The properties are then lemmas about that function.
- Code that suspends (`await`, workers, timers, transactions) is cut at its suspension points.
  A run is any sequence of actions, and the theorems hold after every such sequence.
- Databases are maps, servers and language models are arbitrary functions, timers are events that
  may fire while armed, clocks are integers. HMAC, AES and JSON are function values with the laws
  stated in a `Lawful` predicate. Base64 (RFC 4648, section 4) is defined concretely.

| module | what it models |
|---|---|
| `WorkerProtocol` | the message, timer and stream protocol between the function host and an isolated worker |
| `Base64` | how request bodies, response bodies and stream chunks cross the worker boundary |
| `FunctionCache` | the bounded, re-validated cache in front of the function table |
| `Admission` | the concurrency limit of the function server |
| `CronFetch`, `CronOrigin` | the redirect loop that carries a metadata header, and the token in that header |
| `Redirects`, `Frontend` | the `_redirects` compiler and the request-time resolver |
| `KvReconcile`, `KvOrder` | diff and apply of key-value exposure rules, and the order of the rules afterwards |
| `MigrationHeaders`, `MigrationRuns` | migration headers and plans, and histories of migration runs |
| `AgentLoop` | the support agent's model loop and its shared budget |
| `WorkerPool` | the bounded pool of the backfill scripts |
| `Regions` | three derivations of an instance's region, and region-named variables |
| `KeyConsolidation` | giving all functions of an app one API key |
| `OfficeStream` | printing and collecting a streamed answer |
| `Text`, `Wrappers` | trimming, splitting and joining; `Option` and `Result` |

## What the proofs found

Each of these is proved with the exact condition under which it happens, and with an input or a
run that shows it.

- A worker can lose its watchdog (`WorkerProtocol.LifecycleSafety`, `UnattendedExample`): between
  `stream_end` and `done` the background timer has been cleared, so a `waitUntil` promise that
  never settles keeps the worker alive. For a worker that has reported no error this is the only
  such situation; one that has, and that the host does not end, has none until it answers either.
- A worker error before the reply does not stop the reply, or another error, from being taken, so
  `resolve` or `reject` is called again, without effect. `WorkerProtocol.SettledOnceIff` says exactly
  when there is more than one call, and `CrashThenReply` is such a run. Code that throws null makes
  the worker post nothing but `done`, which is ignored: the caller gets the error or the timeout
  (`ThrewNullNeverAnswers`).
- The cache serves replaced code exactly when code that can be cached is replaced without a later
  `deployed_at` (`FunctionCache.HitsAreCurrentIff`). The stamp is the start of the deploying
  transaction (services/control-api/src/routes/functions.ts:261), so two overlapping deployments
  that commit in the other order are such a case (`LateCommitServesOldCode`).
- A verified hit looks neither at provisioning nor at the connection row, so a load of an unchanged
  database can differ from the plain read; `FunctionCache.QuietLoadIsPlain` says exactly when (a
  single dead connection makes no difference), and `UnconfiguredIsServed` and
  `UnprovisionedIsServed` are runs.
- `$&`, `$$` and the like in a request path are interpreted when `:splat` is substituted
  (`Frontend.DollarPathExample`). Substitution is literal exactly for captured texts without such a
  code (`SubstitutionIsLiteralIff`).
- A line separator other than `\n` after a `#` keeps that `#` out of the reach of comment stripping
  (`Redirects.StrayTerminatorKeepsHash`). Emitted rules survive printing and parsing exactly when
  none holds a `#` (`ParsePrintParse`, `HashRuleIsLost`).
- After a malformed `Location`, the request body clone and the response stay open; on every other
  path both are accounted for (`CronFetch.FollowRedirects`; `LeakIff` is the condition on the
  server's answers, `BadLocationExample` an instance).
- The admission check and the increment of the counter are separated by a load, so the limit can be
  exceeded by the number of simultaneous loads less one, and this bound is attained
  (`Admission.BoundIsReached`).
- Overlapping agent loops share one budget and check it before each call, so they can exceed its
  caps by one call each; this bound is attained too (`AgentLoop.BoundsAreReached`).
- When JSON output of a watched answer reaches its limit, the reported `last_sequence` is that of
  the event that was refused, so resuming after it skips that event; resuming continues where the
  collection ends exactly when everything fitted (`OfficeStream.ResumeContinuesIff`,
  `RefusedEventIsSkipped`).
- Reconciling KV rules reproduces the declared rules but not always their order, which breaks ties
  between patterns: `KvOrder.OrderReproducedIff` says when it does, and `ChangedRuleMovesBack` gives
  the common case in which it does not, with the instance `ChangedRuleExample`.

## Assumptions

- App ids are `app_` and twelve characters of `[0-9a-z]` (packages/shared/src/constants.ts:1-3), so
  they hold no colon and cache keys are unambiguous (`FunctionCache.AppIdsNeverCollide`; for other
  ids `CacheKeysCollideIff` is exact). They also keep every re-attested cron token far below the
  1024 characters that `CronOrigin.TokenWindow` allows for.
- The gateway refuses to overwrite a rule by a different one and keeps the place of a rule that is
  put again (services/control-api/src/routes/v1/kv-expose.ts:185-210,
  services/control-api/src/services/kv/expose.ts:95-103).

## Model

| member | source | states |
|---|---|---|
| `WorkerProtocol.StreamFidelity` | services/deno-runtime/worker-executor.ts:130-206 | in every reachable state the client stream holds a prefix of the bytes the worker read, all of them once it was closed normally; the writer is closed or aborted at most once and never closed normally after a broken body |
| `WorkerProtocol.TerminatedMeansReleased` | services/deno-runtime/worker-executor.ts:134-206 | in every run, once the worker is terminated the client stream is closed, aborted or was never opened |
| `WorkerProtocol.StreamEndsWith` | services/deno-runtime/worker-executor.ts:174-206 | which event ends an open stream and how: normal end, background timer, worker error and stream error each with its own reason |
| `WorkerProtocol.CalmStream` | services/deno-runtime/worker-executor.ts:161-207 | without timers, crashes and disconnects the client holds exactly the chunks relayed so far, a clean stream ends closed, a broken one aborted with its reason |
| `WorkerProtocol.NothingAfterCancel` | services/deno-runtime/worker-executor.ts:130-206 | after the client hung up no byte is written to it, however the run goes on |
| `WorkerProtocol.LifecycleSafety` | services/deno-runtime/worker-executor.ts:100-248 | a live worker without error has no timer armed exactly when its clean stream has ended and `done` is outstanding, one with an error then and before it has answered; a script that answers and is seen to its end terminates the worker; termination leaves no timer |
| `WorkerProtocol.UnattendedExample` | services/deno-runtime/worker-executor.ts:186-189 | the unattended situation is reached by an empty stream after `stream_end` |
| `WorkerProtocol.SettledOnce` | services/deno-runtime/worker-executor.ts:144-248 | over a whole run `resolve` is called at most once, exactly when a reply was taken, and last; a further call is only ever a worker error before any reply, or the reply after such an error |
| `WorkerProtocol.SettledOnceIff` | services/deno-runtime/worker-executor.ts:144-248 | there is at most one call of `resolve` or `reject` if and only if no worker error came before a reply, or just one did, it settled the promise and no reply was taken |
| `WorkerProtocol.AttemptsCounted` | services/deno-runtime/worker-executor.ts:144-248 | the calls are as many as the worker errors before a reply, the reply and the timeout together |
| `WorkerProtocol.SettledOnceWithoutCrash` | services/deno-runtime/worker-executor.ts:144-248 | without a worker error there is at most one call of `resolve` or `reject` |
| `WorkerProtocol.CrashThenReply` | services/deno-runtime/worker-executor.ts:210-240 | a run in which an error and then a reply settle the promise twice, and the error stands |
| `WorkerProtocol.OutcomeIsFinal` | services/deno-runtime/worker-executor.ts:144-248 | what the caller got stays, however the run goes on |
| `WorkerProtocol.ThrewNullNeverAnswers` | services/deno-runtime/worker-executor.ts:1129-1144 | a worker whose code threw null never resolves the promise and never leaves the first phase |
| `WorkerProtocol.OutcomeMeaning` | services/deno-runtime/worker-executor.ts:144-248 | the caller waits exactly while there was no reply, crash or timeout, and a reply is the worker's first protocol message |
| `WorkerProtocol.EndsWithout` | services/deno-runtime/worker-executor.ts:102-247 | before any reply the execution timer terminates and is reported, and an error is reported with its reason |
| `WorkerProtocol.BackgroundEnds` | services/deno-runtime/worker-executor.ts:174-233 | after a reply the background timer, an error, `done` and a stream error each end the worker |
| `WorkerProtocol.UndisturbedStreamCompletes` | services/deno-runtime/worker-executor.ts:161-207 | without timers, crashes and disconnects a clean stream arrives complete, is closed and its worker terminated |
| `WorkerProtocol.BufferedBodyEndToEnd` | services/deno-runtime/worker-executor.ts:1103-1121 | a success that reaches the caller carries the status, the headers and, once decoded, exactly the bytes of the user's response |
| `WorkerProtocol.CollectedLogs` | services/deno-runtime/worker-executor.ts:147-156 | the logs are the first 100 console messages, each clipped, delivered before a background handler took over |
| `WorkerProtocol.LogsInNumbers` | services/deno-runtime/worker-executor.ts:147-156 | in numbers: at most 100 entries, the first ones in order, each cut after 10000 characters |
| `WorkerProtocol.LogsArePosted` | services/deno-runtime/worker-executor.ts:147-156 | the console entries on the port are those the user code logged, in order |
| `WorkerProtocol.RunInv` | services/deno-runtime/worker-executor.ts:100-248 | the joint invariant of host phase, timers, stream writer, port and worker script is kept by every interleaving |
| `WorkerProtocol.Drive` | services/deno-runtime/worker-executor.ts:1069-1146 | the worker driver posts exactly the script of its response: one stream, one reply or one error, then `done` |
| `WorkerProtocol.RepliesAre` | services/deno-runtime/worker-executor.ts:1069-1146 | what the worker posts for each way user code can end, with its status, headers, chunks and reason |
| `WorkerProtocol.Executor.OnMessage` | services/deno-runtime/worker-executor.ts:147-236 | the handler of the current phase moves the host to the specified next state |
| `WorkerProtocol.Executor.OnExecTimer` | services/deno-runtime/worker-executor.ts:102-104 | the execution timer terminates the worker and rejects |
| `WorkerProtocol.Executor.OnBgTimer` | services/deno-runtime/worker-executor.ts:174-220 | the background timer aborts an open stream with its own reason, disarms itself and terminates |
| `WorkerProtocol.Executor.OnError` | services/deno-runtime/worker-executor.ts:202-240 | a worker error does what its phase prescribes |
| `WorkerProtocol.Executor.CloseStreamWriter` | services/deno-runtime/worker-executor.ts:134-142 | closes or aborts only while a writer is held, and gives it up |
| `Base64.AtobBtoa` | services/deno-runtime/worker-executor.ts:373-375 | `atob` undoes `btoa` on every byte sequence, padding included |
| `Base64.BodyIdentity` | services/deno-runtime/server.ts:187-193 | bytes survive encode loop, base64 and decode loop unchanged |
| `Base64.EncodeInjective` | services/deno-runtime/worker-executor.ts:1103-1112 | different bodies never share an encoding |
| `Base64.EncodeShape` | services/deno-runtime/worker-executor.ts:1103-1112 | four characters for every three bytes, padded with one or two `=` |
| `Base64.GroupValue` | services/deno-runtime/worker-executor.ts:1103-1112 | a group of bytes and its characters spell the same 24-bit number, short groups filled with zero bits |
| `Base64.AlphabetIs` | services/deno-runtime/worker-executor.ts:373-375 | the 64 characters are those of the standard alphabet, in order |
| `Base64.EncodeBody` | services/deno-runtime/worker-executor.ts:1103-1112 | the encode loop over the array yields `btoa` of its bytes |
| `Base64.DecodeBody` | services/deno-runtime/worker-executor.ts:179-182 | the decode loop fills a fresh array with the decoded bytes, or reports `atob`'s exception |
| `FunctionCache.CacheLinearizable` | services/deno-runtime/function-loader.ts:262-426 | for colon-free app ids, and as long as no code that can be cached is replaced without a later stamp: under every interleaving of loads, deployments, deletions, pauses and any subset of invalidations, an answer agrees with the database at an instant of that load, and fails only if more of its queries failed than one on a dead connection, or the app was then unprovisioned or unconnected; the cache holds at most 1000 entries |
| `FunctionCache.HitsAreCurrentIff` | services/deno-runtime/function-loader.ts:269-290 | over any history of the database, every verified hit of every run returns current code if and only if no code that can be cached is replaced without a later stamp |
| `FunctionCache.TruthfulWhenReady` | services/deno-runtime/function-loader.ts:269-290 | later stamps for different code are enough, and necessary where apps stay set up and connected |
| `FunctionCache.OvertakenIsServed` | services/deno-runtime/function-loader.ts:262-420 | a run of two loads that returns code which was replaced without a later stamp, for every such history |
| `FunctionCache.LateCommitServesOldCode` | services/deno-runtime/function-loader.ts:269-290 | two deployments stamped in the wrong order, and a run that serves the older code afterwards |
| `FunctionCache.QuietLoadIsPlain` | services/deno-runtime/function-loader.ts:262-420 | if the database stands still during a load and at most one of its queries fails, on a dead connection, the answer is that of the plain read exactly when the load reads everything, or the function is gone, or its app is provisioned and paused or connected |
| `FunctionCache.UnconfiguredIsServed` | services/deno-runtime/function-loader.ts:262-388 | for every app that was set up and no longer is, a run whose load of the unchanged database is answered from the cache where the plain read finds nothing |
| `FunctionCache.UnprovisionedIsServed` | services/deno-runtime/function-loader.ts:269-342 | an app marked unprovisioned, and a run that still serves its function where the plain read fails |
| `FunctionCache.FailedMeans` | services/deno-runtime/function-loader.ts:336-388 | a load of which at most one query fails, on a dead connection, fails only because the app was unprovisioned or unconnected during it |
| `FunctionCache.RetriesOnce` | services/deno-runtime/function-loader.ts:181-198 | a dead connection makes the check, or the whole read, start again, once; any other failed query, and a second dead connection in a row, end the load |
| `FunctionCache.WithRuntimeClient` | services/deno-runtime/function-loader.ts:181-198 | the loop runs its callback a second time exactly if the first connection was dead, and answers with the last run |
| `FunctionCache.LoadEnds` | services/deno-runtime/function-loader.ts:262-420 | a load whose queries are answered is finished after at most four rounds |
| `FunctionCache.QuietAnswers` | services/deno-runtime/function-loader.ts:262-420 | what a load of an unchanged database answers, column by column |
| `FunctionCache.CheckedMeans` | services/deno-runtime/function-loader.ts:269-290 | the four outcomes of a check, for the load and for the cache |
| `FunctionCache.OpenedMeans` | services/deno-runtime/function-loader.ts:268-272 | an entry is checked exactly before it has expired |
| `FunctionCache.LoadedIsStored` | services/deno-runtime/function-loader.ts:406-418 | a complete load leaves its row in the cache for five minutes |
| `FunctionCache.InvalidatedIsReloaded` | services/deno-runtime/function-loader.ts:422-426 | in every reachable state an invalidated function is loaded anew and no other entry is touched |
| `FunctionCache.VerifiedHitIsCurrent` | services/deno-runtime/function-loader.ts:269-290 | an entry that passes the check is that function's, with its current code unless the history replaced code without a later stamp |
| `FunctionCache.CacheKeyInjective` | services/deno-runtime/function-loader.ts:234-236 | keys of colon-free app ids are unambiguous |
| `FunctionCache.CacheKeysCollideIff` | services/deno-runtime/function-loader.ts:234-236 | two apps have functions with a common key exactly when one id and a colon start the other id |
| `FunctionCache.AppIdsNeverCollide` | packages/shared/src/constants.ts:1-3 | ids as the platform issues them give unambiguous keys |
| `FunctionCache.RunInv` | services/deno-runtime/function-loader.ts:262-426 | every entry and every suspended load stems from database versions read in their order, in every reachable state, whatever the history |
| `FunctionCache.PutSlots` | services/deno-runtime/function-loader.ts:406-416 | setting a key changes its slot only |
| `FunctionCache.InsertMeans` | services/deno-runtime/function-loader.ts:406-416 | an insertion at a thousand entries gives up the oldest one and only it, below that none |
| `FunctionCache.InsertNew` | services/deno-runtime/function-loader.ts:406-416 | a new key goes last |
| `FunctionCache.RemoveSlots` | services/deno-runtime/function-loader.ts:422-426 | deleting a key empties its slot only |
| `FunctionCache.Loader.Begin` | services/deno-runtime/function-loader.ts:262-275 | what a load does before its first await |
| `FunctionCache.Loader.Resume` | services/deno-runtime/function-loader.ts:262-420 | what a load does to the map and to itself between two awaits |
| `FunctionCache.Loader.Invalidate` | services/deno-runtime/function-loader.ts:422-426 | drops the entry of that function and no other |
| `Admission.CounterIsExact` | services/deno-runtime/server.ts:95-141 | the counter is the number of executions in flight, and executions plus loads never exceed the limit less one plus the largest number of simultaneous loads |
| `Admission.BoundIsReached` | services/deno-runtime/server.ts:95-141 | for every limit and every number of simultaneous loads a run attains that bound |
| `Admission.Gate.Arrive` | services/deno-runtime/server.ts:95-110 | 429 exactly when the counter has reached the limit |
| `Admission.Gate.BeginExecution` | services/deno-runtime/server.ts:112-141 | the counter rises only for a function that was found |
| `Admission.Gate.EndExecution` | services/deno-runtime/server.ts:216-218 | the counter falls once per execution |
| `CronFetch.FollowRedirects` | services/deno-runtime/cron-fetch.ts:11-56 | the loop sends and answers what the recursive specification says, for any server; clones and responses are disposed of except after a malformed location |
| `CronFetch.Fetch` | services/deno-runtime/cron-fetch.ts:8-10 | exactly the requests to other origins go to the native fetch |
| `CronFetch.SetMetadata` | services/deno-runtime/cron-fetch.ts:15-16 | sets or deletes the header by the origin about to be asked |
| `CronFetch.NextRequest` | services/deno-runtime/cron-fetch.ts:35-53 | the request that follows a redirect |
| `CronFetch.HopRequest` | services/deno-runtime/cron-fetch.ts:14-56 | request k is determined by the original, its own URL, whether an earlier hop turned to GET and whether one crossed origins: method, body and every header |
| `CronFetch.HeaderOnHop` | services/deno-runtime/cron-fetch.ts:35-47 | header by header: Authorization, Cookie and Proxy-Authorization stay exactly until an origin is left, the five body headers exactly until the method changes, all others always |
| `CronFetch.BodyOnHop` | services/deno-runtime/cron-fetch.ts:39-50 | body and method are the original ones exactly until the method changes, and then none and GET |
| `CronFetch.Chain` | services/deno-runtime/cron-fetch.ts:34-55 | each request is the redirect of its predecessor, and goes to the location that the answer to its predecessor named |
| `CronFetch.LastDecides` | services/deno-runtime/cron-fetch.ts:22-33 | the outcome is that of the answer to the last request |
| `CronFetch.FollowedStatuses` | services/deno-runtime/cron-fetch.ts:20-33 | every answer but the last was one of the five redirects, and when a redirect as last answer is returned, rejected or a bad location, by mode and limit |
| `CronFetch.LeakIff` | services/deno-runtime/cron-fetch.ts:20-54 | the exchange ends on a malformed location, leaving clone and response open, if and only if in follow mode and below the limit the last answer is a redirect to a location that does not resolve |
| `CronFetch.BadLocationExample` | services/deno-runtime/cron-fetch.ts:20-34 | a server and a request with a body for which it does |
| `CronFetch.OneHop` | services/deno-runtime/cron-fetch.ts:14-56 | one round sends the stamped request and decides by its answer, disposing of clone and response except on a malformed location |
| `CronFetch.TokenNeverLeaks` | services/deno-runtime/cron-fetch.ts:15-16 | the metadata header is on a hop exactly when its origin is allowed, and holds the token |
| `CronFetch.MethodChangesOnce` | services/deno-runtime/cron-fetch.ts:39-47 | the method changes at most once, to GET |
| `CronFetch.HopLimit` | services/deno-runtime/cron-fetch.ts:23-33 | at most 21 requests, 21 when rejected in follow mode, one in the other modes; `redirected` is set exactly after a redirect |
| `CronFetch.FollowsStandard` | services/deno-runtime/cron-fetch.ts:35-47 | URL, method and body are those of HTTP-redirect fetch (section 4.4 of the Fetch Standard); headers differ only by the listed further removals |
| `CronOrigin.IssuedVerifies` | services/deno-runtime/cron-origin.ts:7-21 | an issued token verifies exactly for its app, inside its window and within the format limits |
| `CronOrigin.VerifiedIff` | services/deno-runtime/cron-origin.ts:7-21 | a token verifies if and only if it is a payload and an accepted signature of it, and the payload holds claims for the app that are neither expired nor from the future |
| `CronOrigin.OnlyVerifiedAttested` | services/deno-runtime/cron-origin.ts:24-25 | an execution gets a token exactly when the one it came with verifies |
| `CronOrigin.RequiredMeans` | services/deno-runtime/cron-origin.ts:27-27 | the required seconds are the timeout rounded up, and 35 more |
| `CronOrigin.FreshMeans` | services/deno-runtime/cron-origin.ts:26-32 | a fresh attestation is dated now and lasts the required seconds, at least 900 |
| `CronOrigin.TokenWindow` | services/deno-runtime/cron-origin.ts:24-33 | a returned token verifies at every time from now to the timeout plus 34 s, if and only if it is the given one or fits the format |
| `CronOrigin.LongTokenUnchanged` | services/deno-runtime/cron-origin.ts:29-29 | the given token comes back exactly when it already lasts long enough |
| `CronOrigin.ChainNeverBreaks` | services/deno-runtime/cron-origin.ts:24-33 | any chain of descendants, each started in time, re-attests all the way down |
| `Redirects.PrintParseRoundTrip` | packages/static-frontend-worker/src/redirects-parser.ts:32-84 | rules printed one per line with comments, blank lines and either line ending anywhere parse back in order without warnings |
| `Redirects.ParsePrintParse` | packages/static-frontend-worker/src/redirects-parser.ts:32-84 | for any text, printing what it parsed to and parsing again gives the same rules without warnings if and only if no emitted rule holds a `#` |
| `Redirects.CleanTextReprints` | packages/static-frontend-worker/src/redirects-parser.ts:36-40 | no text without stray line terminators yields such a rule |
| `Redirects.HashRuleIsLost` | packages/static-frontend-worker/src/redirects-parser.ts:36-47 | a text ending in a bare carriage return emits a rule with a `#`, which is lost when printed and read again |
| `Redirects.OneOutcomePerLine` | packages/static-frontend-worker/src/redirects-parser.ts:37-81 | rules and warnings together are as many as the lines that are not blank |
| `Redirects.WarningsNameSkippedLines` | packages/static-frontend-worker/src/redirects-parser.ts:43-78 | a warning is issued exactly for a skipped line, with its number and reason |
| `Redirects.AcceptedIsWellFormed` | packages/static-frontend-worker/src/redirects-parser.ts:40-80 | an accepted rule is printable exactly when no `#` got into it, and on a line without stray terminators none does |
| `Redirects.EmittedShape` | packages/static-frontend-worker/src/redirects-parser.ts:50-80 | every emitted rule starts with a slash and has a supported status |
| `Redirects.StrayTerminatorKeepsHash` | packages/static-frontend-worker/src/redirects-parser.ts:40-40 | stripping leaves a `#` behind exactly when a line terminator follows one |
| `Redirects.StatusTextParses` | packages/static-frontend-worker/src/redirects-parser.ts:60-65 | each supported status is read back from its decimal text |
| `Redirects.ClassifyLine` | packages/static-frontend-worker/src/redirects-parser.ts:39-80 | what one line contributes: nothing, a rule, or one reason |
| `Redirects.AcceptedIff` | packages/static-frontend-worker/src/redirects-parser.ts:43-80 | which words make a rule, and which rule |
| `Redirects.SkippedBecause` | packages/static-frontend-worker/src/redirects-parser.ts:43-80 | a warning names the first check that failed |
| `Redirects.ParseIntMeans` | packages/static-frontend-worker/src/redirects-parser.ts:60-65 | a status is read from an optional sign and decimal digits, whatever follows |
| `Redirects.ParseRedirects` | packages/static-frontend-worker/src/redirects-parser.ts:32-84 | the loop collects the rules and the numbered warnings of all lines |
| `Frontend.SubstitutionIsLiteralIff` | packages/static-frontend-worker/src/worker.ts:125-125 | substitution inserts the captured text verbatim for every target exactly when it contains no `$` code |
| `Frontend.DollarCodes` | packages/static-frontend-worker/src/worker.ts:125-125 | the four codes and the text each stands for |
| `Frontend.DollarPathExample` | packages/static-frontend-worker/src/worker.ts:125-125 | a path with `$&` makes a rule answer with something else |
| `Frontend.SplatMatch` | packages/static-frontend-worker/src/redirects-parser.ts:90-110 | a non-root splat matches exactly the prefix and what lies below it, and captures the rest |
| `Frontend.ExactMatch` | packages/static-frontend-worker/src/worker.ts:129-129 | any other rule matches its own path only |
| `Frontend.CatchAllMatches` | packages/static-frontend-worker/src/worker.ts:113-125 | the catch-all matches every path |
| `Frontend.CatchAll` | packages/static-frontend-worker/src/worker.ts:116-119 | the catch-all captures the path less its leading slashes |
| `Frontend.FindMatch` | packages/static-frontend-worker/src/worker.ts:132-141 | the answer belongs to the least index whose rule matches |
| `Frontend.CandidatesMeaning` | packages/static-frontend-worker/src/worker.ts:83-103 | the path itself comes first; whatever else is tried is a page below it that would be tried alone if it were requested itself; nothing else is tried exactly for a file name with a dot |
| `Frontend.CandidatesNamed` | packages/static-frontend-worker/src/worker.ts:83-103 | the directory index, or the page and the index of an extensionless path |
| `Frontend.RouteLikeIff` | packages/static-frontend-worker/src/worker.ts:107-111 | page-like are exactly the paths whose last piece has no dot and those ending in `.htm` or `.html` in any case |
| `Frontend.TrailingSlash` | packages/static-frontend-worker/src/worker.ts:89-100 | a directory's page is found with and without the trailing slash |
| `Frontend.FileNameMeaning` | packages/static-frontend-worker/src/worker.ts:96-97 | the file name is what follows the last slash |
| `Frontend.AnswerIffPrecedence` | packages/static-frontend-worker/src/worker.ts:143-212 | an answer is the handler's if and only if the declarative precedence gives it: the least matching redirect, then the least candidate that succeeds or throws, then that of the rewrite target, then the application page for page-like paths, then the last candidate; an asset fetch that throws is answered with an error |
| `Frontend.FetchFirstOk` | packages/static-frontend-worker/src/worker.ts:168-175 | finds the first candidate that succeeds or throws, and keeps the last answer otherwise |
| `Frontend.FirstOkMeaning` | packages/static-frontend-worker/src/worker.ts:179-187 | what is found is the answer of the least candidate that succeeds or throws, and nothing exactly when none does |
| `Frontend.Fetch` | packages/static-frontend-worker/src/worker.ts:143-212 | the handler computes the specified answer, exceptions of asset fetches included |
| `Frontend.RedirectsWin` | packages/static-frontend-worker/src/worker.ts:157-163 | with a redirect as first match the answer does not depend on the files |
| `Frontend.FilesBeatRewrites` | packages/static-frontend-worker/src/worker.ts:165-175 | otherwise an existing file is served as if there were no rules, unless an asset fetch before it throws |
| `Frontend.SuccessMeans` | packages/static-frontend-worker/src/worker.ts:165-206 | success exactly if the file, the rewrite target or, for page-like paths only, the application page exists |
| `Frontend.EmittedRulesActed` | packages/static-frontend-worker/src/worker.ts:148-188 | every rule the compiler emits acts as a redirect or a rewrite when it is the first match |
| `Frontend.RuleMemo.Load` | packages/static-frontend-worker/src/worker.ts:51-78 | the memo returns the rules of the binding it was given, after any earlier bindings |
| `Frontend.BindingMeans` | packages/static-frontend-worker/src/worker.ts:51-78 | a binding stands for the rules it spells, whatever stands between them; an unset, empty or malformed one for none |
| `Frontend.ServeAll` | packages/static-frontend-worker/src/worker.ts:143-212 | over any request sequence each answer is that of a fresh worker |
| `KvReconcile.PlanConverges` | packages/cli/src/commands/kv.ts:197-209 | the calls in coded order meet no refusal and end with the declared rules, last duplicate winning |
| `KvReconcile.EqualRulesUntouched` | packages/cli/src/commands/kv.ts:119-132 | no call touches a rule that is already as declared |
| `KvReconcile.PlanLength` | packages/cli/src/commands/kv.ts:200-209 | additions plus removals plus twice the changes, which is the distance of the stores |
| `KvReconcile.CallsNeeded` | packages/cli/src/commands/kv.ts:203-209 | no successful call sequence covers more distance than its length |
| `KvReconcile.PlanIsShortest` | packages/cli/src/commands/kv.ts:197-209 | no sequence that reaches the declared rules is shorter |
| `KvReconcile.Resumable` | packages/cli/src/commands/kv.ts:197-209 | stopped after any prefix, a rerun converges with exactly the calls still outstanding |
| `KvReconcile.AppliedIsStable` | packages/cli/src/commands/kv.ts:111-135 | a second run after success has an empty diff |
| `KvReconcile.DiffParts` | packages/cli/src/commands/kv.ts:111-135 | additions, removals and changes list exactly the missing, surplus and differing patterns, each once |
| `KvReconcile.KeyedMeans` | packages/cli/src/commands/kv.ts:112-113 | the last rule of a pattern wins |
| `KvReconcile.OrderMeans` | packages/cli/src/commands/kv.ts:112-113 | patterns are listed in the order of their first rules |
| `KvReconcile.ComputeDiff` | packages/cli/src/commands/kv.ts:111-135 | the loops over both maps build the diff in insertion order |
| `KvReconcile.ApplyDiff` | packages/cli/src/commands/kv.ts:200-209 | makes exactly the planned calls, stopping at a refusal |
| `KvReconcile.Apply` | packages/cli/src/commands/kv.ts:197-209 | succeeds on the live gateway and leaves the declared rules |
| `KvReconcile.Gateway.Expose` | services/control-api/src/services/kv/expose.ts:95-103 | refuses to put a rule on a pattern with other access |
| `KvReconcile.Gateway.Unexpose` | services/control-api/src/services/kv/expose.ts:135-138 | removes the pattern if present |
| `KvReconcile.ExposeTwice` | services/control-api/src/services/kv/expose.ts:95-103 | the gateway refuses to replace a rule by a different one and accepts the same one again without effect |
| `KvOrder.OrderReproducedIff` | packages/cli/src/commands/kv.ts:197-209 | reconciliation leaves the declared order if and only if the kept rules already stand in it and it puts them first, additions next and changes last |
| `KvOrder.ReconciledOrder` | services/control-api/src/routes/v1/kv-expose.ts:202-209 | the calls leave the kept rules as they stood, then the additions, then the changes, both as declared |
| `KvOrder.ChangedRuleMovesBack` | packages/cli/src/commands/kv.ts:203-209 | a changed rule declared before a kept one never ends up there |
| `KvOrder.ChangedRuleExample` | packages/cli/src/commands/kv.ts:203-209 | two rules of which the first is changed come out in the other order |
| `KvOrder.FirstRunReproduces` | packages/cli/src/commands/kv.ts:197-209 | a first reconciliation leaves the declared order |
| `MigrationRuns.HistorySafety` | db/control-plane/migrate.ts:113-285 | over every history of runs, failures, crashes and either flag, each file commits at most once and the applied files of each phase are a prefix of that phase |
| `MigrationRuns.SuccessMeansApplied` | db/control-plane/migrate.ts:243-285 | a successful run with the opt-in leaves every file applied, one without it every pre-deploy file |
| `MigrationRuns.RunsAreSerial` | db/control-plane/migrate.ts:253-278 | at most one run is between acquiring and releasing the lock |
| `MigrationRuns.LedgerGrows` | db/control-plane/migrate.ts:113-129 | no history ever removes an applied file |
| `MigrationRuns.SinglePhasePrefix` | db/runtime-plane/migrate.ts:56-100 | in a directory without phases the applied files are a prefix of all files |
| `MigrationRuns.SoloRunMeaning` | db/control-plane/migrate.ts:136-158 | a lone run succeeds exactly when every planned file has the right scope and is applied or works |
| `MigrationRuns.SoloRunApplies` | db/control-plane/migrate.ts:118-158 | a lone run applies exactly the planned files before the first one that stops it |
| `MigrationRuns.LoneRunIsSolo` | db/control-plane/migrate.ts:243-285 | from every state of every history with a free lock, a waiting runner left alone ends with exactly the table and the ending of the lone run |
| `MigrationRuns.LoneActsAreOwn` | db/control-plane/migrate.ts:243-285 | it takes only its own steps for that, and gives up a file only if its statements fail |
| `MigrationRuns.CrashedRunIsReplaced` | db/control-plane/migrate.ts:253-285 | a run that dies with the lock, wherever it was, changes nothing, and the next one takes over and completes |
| `MigrationRuns.Ledger.ApplyMigration` | db/control-plane/migrate.ts:118-129 | the statements and the row commit together or not at all |
| `MigrationRuns.Ledger.ApplyByScope` | db/control-plane/migrate.ts:136-158 | skips, rejects or applies one file |
| `MigrationRuns.Ledger.Migrate` | db/control-plane/migrate.ts:243-285 | applies the planned files in order up to the first failure |
| `MigrationHeaders.PlanMigrations` | db/control-plane/migrate.ts:182-212 | the planned and the held-back files in order, or the first header error |
| `MigrationHeaders.PlanPartitions` | db/control-plane/migrate.ts:182-212 | each file is planned or held back, and exactly post-deploy files of a run without the opt-in are held back |
| `MigrationHeaders.EntriesMean` | db/control-plane/migrate.ts:182-212 | every file has its entry with the scope and phase of its headers, or the first file whose headers do not parse decides |
| `MigrationHeaders.EarlierOfPhaseFirst` | db/control-plane/migrate.ts:182-212 | a file is planned after every earlier file of its phase |
| `MigrationHeaders.ParseScope` | db/control-plane/migrate.ts:24-49 | the first non-blank line alone decides |
| `MigrationHeaders.ParsePhase` | db/control-plane/migrate.ts:76-99 | scans the leading comment block |
| `MigrationHeaders.PhaseDecidedInHeader` | db/control-plane/migrate.ts:76-99 | the first phase line of the block decides, whatever follows it; a statement ends the search |
| `MigrationHeaders.HeaderRoundTrip` | db/control-plane/migrate.ts:24-49 | a header is read back whatever white space it was written with |
| `MigrationHeaders.DeclaredScope` | db/control-plane/migrate.ts:24-49 | the three scope words and what they declare, any other word being an error |
| `MigrationHeaders.DeclaredPhase` | db/control-plane/migrate.ts:76-99 | the two phase words and what they declare, any other word being an error |
| `MigrationHeaders.UndeclaredPhase` | db/control-plane/migrate.ts:76-99 | a block without a phase line is pre-deploy |
| `AgentLoop.BudgetUnderOverlap` | templates/butterSupport/durable-objects/support-ticket-do.ts:488-497 | with at most k loops at once: at most 24 + k calls, tokens below the caps plus k calls' worth, and at most 25 iterations each |
| `AgentLoop.BoundsAreReached` | templates/butterSupport/durable-objects/support-ticket-do.ts:488-611 | for every k a run of k overlapping loops attains these bounds |
| `AgentLoop.OverlapOvershoots` | templates/butterSupport/durable-objects/support-ticket-do.ts:488-611 | k overlapping loops overshoot any budget one loop can spend within the caps, by one call each |
| `AgentLoop.BudgetIsTheSum` | templates/butterSupport/durable-objects/support-ticket-do.ts:488-497 | the stored budget is the sum of all calls that were charged |
| `AgentLoop.NoCallsPastTheCap` | templates/butterSupport/durable-objects/support-ticket-do.ts:602-611 | once a cap is reached no further call starts |
| `AgentLoop.TranscriptWellFormed` | templates/butterSupport/durable-objects/support-ticket-do.ts:598-705 | system, user, then turns each followed by one answer per call in order; only a finished loop ends on an assistant message; every request to the model is complete |
| `AgentLoop.EndingMeans` | templates/butterSupport/durable-objects/support-ticket-do.ts:602-637 | what each ending says about the calls made and the budget read |
| `AgentLoop.ConversationMeans` | templates/butterSupport/durable-objects/support-ticket-do.ts:598-705 | the requests from first to last: each continues the one before by the answers to its calls, and the last answer decides transcript and ending |
| `AgentLoop.EveryCallAnswered` | templates/butterSupport/durable-objects/support-ticket-do.ts:675-704 | every call is answered once, with its id and what the tool returned or why it failed |
| `AgentLoop.RunTools` | templates/butterSupport/durable-objects/support-ticket-do.ts:675-704 | all calls of a turn are carried out, and the loop stops exactly after a terminal tool that did not throw |
| `AgentLoop.RunAgentLoop` | templates/butterSupport/durable-objects/support-ticket-do.ts:598-705 | the loop refines the recursive conversation |
| `AgentLoop.BudgetStore.AddBudget` | templates/butterSupport/durable-objects/support-ticket-do.ts:489-494 | adds the usage and one call, from zero when nothing is stored |
| `WorkerPool.EachItemOnce` | scripts/backfill-migrations.ts:53-69 | under every interleaving no item is taken twice, results sit at their own index and at most `limit` items are in flight |
| `WorkerPool.QuiescentIsComplete` | scripts/backfill-migrations.ts:53-69 | when all workers have returned, all results are there and the counter is n plus the number of workers |
| `WorkerPool.NotStuck` | scripts/backfill-migrations.ts:59-65 | each worker that has neither returned nor failed has a step of its own |
| `WorkerPool.RunInv` | scripts/backfill-spa-worker.ts:181-197 | the pool invariant is kept by every interleaving |
| `WorkerPool.CountersAddUp` | scripts/backfill-spa-worker.ts:206-217 | in every state of every run the three counters sum to the number of finished items, at quiescence to n, and each is then the number of items whose result has that status |
| `WorkerPool.SharedPool.TakeNext` | scripts/backfill-migrations.ts:61-62 | a worker takes the counter's item or returns |
| `WorkerPool.SharedPool.Store` | scripts/backfill-migrations.ts:63-63 | the result goes to the index that was taken |
| `Regions.DerivationsAgree` | packages/shared/src/regions.ts:81-118 | on every environment the shared loader accepts, runtime and control API derive the same valid region, up to white space around an explicit one |
| `Regions.DerivedFromMap` | services/control-api/src/index.ts:6-18 | the first-pair scan, the last-pair object and the strict map give the same value |
| `Regions.EnvSuffixInjective` | packages/shared/src/regions.ts:120-122 | valid region names never share a suffix |
| `Regions.EnvSuffixSpells` | packages/shared/src/regions.ts:120-122 | capitals for letters, underscores for hyphens, digits unchanged |
| `Regions.ConfiguredVariablesDiffer` | db/runtime-plane/migrate.ts:21-37 | two configured regions never read the same variable |
| `Regions.FlyRegionFor` | packages/shared/src/regions.ts:131-139 | the first key that maps to the region, none exactly when there is none |
| `Regions.FlyRegionLeadsBack` | packages/shared/src/regions.ts:131-139 | a machine in a Fly region that maps to a region derives that region in all three ways |
| `Regions.RegionsAcceptedIff` | packages/shared/src/regions.ts:10-34 | the list is accepted exactly when its trimmed, non-empty pieces are at least one, valid and distinct, and those are the answer |
| `Regions.RegionNameIff` | packages/shared/src/regions.ts:8-25 | a name is letters followed by one or more hyphenated parts of letters and digits |
| `Regions.EntriesAcceptedIff` | packages/shared/src/regions.ts:60-78 | the map is accepted exactly when every entry is well formed and no key is repeated, and holds those pairs and nothing else |
| `Regions.EntryOkIff` | packages/shared/src/regions.ts:61-72 | an entry is accepted exactly with text on both sides of its first colon, which become key and value |
| `Regions.EntryRoundTrip` | packages/shared/src/regions.ts:61-72 | a printed `key:value` pair is read back, whatever colons the value has |
| `Regions.PiecesOfTrimmed` | packages/shared/src/regions.ts:11-15 | trimming the list first does not change its trimmed pieces |
| `Regions.ParseRegions` | packages/shared/src/regions.ts:10-34 | the distinct valid names, or the first error in the order the checks run |
| `Regions.ParseFlyRegionMap` | packages/shared/src/regions.ts:54-79 | the map of all entries, or the first malformed or repeated one |
| `Regions.ResolveInstanceRegion` | services/deno-runtime/function-loader.ts:8-20 | the runtime's scan takes the first usable pair |
| `Regions.EmptyIsUnset` | services/control-api/src/index.ts:6-18 | an empty region variable counts as unset for runtime and bootstrap and is an error for the loader |
| `Regions.ResolveRuntimeUrls` | db/runtime-plane/migrate.ts:21-37 | one connection per region, or the first region without one |
| `KeyConsolidation.Fixpoint` | scripts/backfill-consolidate-clone-keys.ts:56-140 | after plan and apply on a quiet table every readable function's keys hold one value that existed, all else is unchanged, and at most one value is left |
| `KeyConsolidation.OthersUntouched` | scripts/backfill-consolidate-clone-keys.ts:117-140 | however the table was edited since planning, unnamed rows and unnamed variables keep their values |
| `KeyConsolidation.PlanForApp` | scripts/backfill-consolidate-clone-keys.ts:56-115 | there is a plan exactly when two values are in use; it names the alphabetically first value, every differing key and every displaced value |
| `KeyConsolidation.PickCanonical` | scripts/backfill-consolidate-clone-keys.ts:50-54 | a value of the set that no other precedes |
| `KeyConsolidation.AtMostIff` | scripts/backfill-consolidate-clone-keys.ts:50-54 | the order is alphabetical |
| `KeyConsolidation.DisplacedMeansAffected` | scripts/backfill-consolidate-clone-keys.ts:90-112 | once two values exist some function is affected, so the exit for an empty list is never taken |
| `KeyConsolidation.DistinctValues` | scripts/backfill-consolidate-clone-keys.ts:74-81 | each value in use, once |
| `KeyConsolidation.FindAffected` | scripts/backfill-consolidate-clone-keys.ts:87-110 | the functions to rewrite in order, and the values they lose |
| `KeyConsolidation.KeysToWrite` | scripts/backfill-consolidate-clone-keys.ts:93-101 | the differing keys of one function |
| `KeyConsolidation.Table.ApplyPlan` | scripts/backfill-consolidate-clone-keys.ts:117-140 | re-reads, rewrites and stores row by row, skipping vanished rows and stopping at an exception |
| `KeyConsolidation.RewrittenMeans` | scripts/backfill-consolidate-clone-keys.ts:117-140 | vanished and empty rows are left alone, an unreadable one is an exception, any other is written back |
| `KeyConsolidation.ConsolidateTwice` | scripts/backfill-consolidate-clone-keys.ts:142-195 | a second run right after the first finds nothing to do |
| `OfficeStream.StreamAsk` | packages/cli/src/commands/office.ts:67-111 | what is printed, collected and summed up for any events and any ending of the stream |
| `OfficeStream.ShownEndsWithTheAnswer` | packages/cli/src/commands/office.ts:72-79 | the terminal ends with the whole answer, and shows nothing else exactly when the answer extends what was shown before the first snapshot |
| `OfficeStream.ShownOnlyGrows` | packages/cli/src/commands/office.ts:72-103 | printed text is never taken back |
| `OfficeStream.StreamedIsTheAnswer` | packages/cli/src/commands/office.ts:99-101 | without a snapshot the pieces shown are the answer |
| `OfficeStream.CollectedWhole` | packages/cli/src/commands/office.ts:91-94 | at most 10000 events and 8 MiB; everything exactly when everything fits, otherwise cut at the first excess |
| `OfficeStream.ResumeContinuesIff` | packages/cli/src/commands/office.ts:86-94 | for increasing sequence numbers the reported position is that of the last collected event if and only if everything fitted |
| `OfficeStream.RefusedEventIsSkipped` | packages/cli/src/commands/office.ts:86-94 | one event over the limit is not collected, and the reported position skips it |
| `OfficeStream.TrackedIsLatest` | packages/cli/src/commands/office.ts:85-90 | state, decision and identities are those of the latest event that speaks of them |
| `OfficeStream.AccumulatedMeans` | packages/cli/src/commands/office.ts:95-102 | the answer is the last snapshot and the pieces after it, or all pieces without one |
| `OfficeStream.EndingDecides` | packages/cli/src/commands/office.ts:104-110 | a stream error says where to resume, any other exception keeps the position, and neither changes state or events |
| `OfficeStream.SuccessMeans` | packages/cli/src/commands/office.ts:44-54 | exit status 0 after a stream read to its end exactly when no event carried an error |
| `OfficeStream.ExitCodeMeans` | packages/cli/src/commands/office.ts:44-54 | status two exactly for an invalid request, zero exactly without error and bad state |
| `OfficeStream.Terminal.FlushReplacement` | packages/cli/src/commands/office.ts:73-79 | merges a pending snapshot with what was shown |
| `OfficeStream.Terminal.Show` | packages/cli/src/commands/office.ts:95-102 | defers snapshots, appends pieces to a pending one and prints others |

## Left out

- FunctionCache.CacheLinearizable: speaks of function code, existence, deletion and pause only, because a hit compares nothing but `deployed_at`; app-level environment variables in a cached entry may be stale.
- FunctionCache.QuietLoadIsPlain: whether a failed query counts as a dead connection (`isDeadConnectionError`, a search in error messages) is an arbitrary boolean of each failure, and decryption of environment variables does not fail.
- WorkerProtocol.StreamFidelity: user code that posts protocol messages itself is outside the model; the worker follows the driver at the end of its template.
- CronFetch.FollowRedirects: what the Fetch Standard does inside one exchange (CORS, caching, referrers, abort signals) and a native fetch that throws are not modelled.
- CronOrigin.TokenWindow: the HMAC and base64url are function values with the laws of `Lawful`. `VerifiedIff` says that exactly the accepted signatures verify; that nobody without the secret can make one is a property of the HMAC and is not modelled.
- Frontend.SplatMatch: the two copies of the matcher, in `redirects-parser.ts` and `worker.ts`, are the same text and are modelled once.
- Frontend.Fetch: percent-encoding and normalisation of URLs by the platform are left to the `locate` and `asset` functions of a site.
- KvOrder.ReconciledOrder: only the relative order of the rules is modelled, not the stored numbers, and not the matching of keys against patterns.
- MigrationRuns.HistorySafety: a migration whose own text commits or rolls back, and a lost database session, are not modelled.
- AgentLoop.BudgetUnderOverlap: takes the read and the write of `addBudget` as one step, which the storage gates of a durable object provide.
- Regions.DerivationsAgree: Fly region codes that are names of built-in object properties are treated as absent keys.
- KeyConsolidation.Fixpoint: is about a table nobody else writes between planning and the end; for other tables see `OthersUntouched`, and writes between the read and the update of one row are not modelled.
- OfficeStream.StreamAsk: event parsing and the check for gaps in `packages/sdk/src/office/stream.ts` are upstream of the model.
- Admission.CounterIsExact: what the server does with a result (status, header removal, null-body statuses) is not part of the model.
- Characters are one per position; UTF-16 surrogates and Unicode white space beyond the listed characters are not told apart.
- `hasAllCapsBurst`, the tools of the support agent and the persistence of its messages: easy or plain I/O.
- The generated `ctx` object, HTTP routing, logging, prompts and printing of the scripts: thin wrappers around I/O.
- `packages/cli/src/commands/data.ts:33-40`, column fitting: its loop has no decreasing measure once the last column has width 4.
