# GG-CORE in Dafny

A model of the core of GG-CORE, a local inference runtime, with proofs about it. `dafny verify dfyconfig.toml`
verifies all of it. Nothing here runs the runtime.

| module | models | main results |
|---|---|---|
| `IpcConnection`, `IpcSafety`, `IpcTheorems`, `IpcOutcomes`, `IpcCauses` | one connection: the reader, its stream and inference tasks, the worker, the clocks, as a step relation | what a cancel reaches, and that after it only the error frame of that stream may follow; one final frame and nothing after it; one live task an id; every frame, its tokens and its reason traced to the events of the run; a stream moves on and ends |
| `ControlledInference`, `TokenStream` | the stop control, the controlled run, the handler around it; the token channel | exactly which stop, refusal or success a run ends with and the caller is told; exactly one terminal item, complete exactly without failure and stop |
| `KvReference`, `KvCache`, `Paged` | the paged KV cache with LRU eviction over its page pool | any run on pages is a run on a map from sequence to appended rows; no page has two owners; the victim is the least recently used; exactly which appends succeed and which reads are right |
| `FlashAttention`, `Vectors` | tiled attention with online softmax, over the reals | equal to plain softmax attention for every tile size |
| `UtcDate` | the build's day-number-to-date arithmetic | follows the Gregorian calendar day by day, with an inverse |
| `SimdDot`, `Quantize`, `QuantizedMatmul` | block quantization, lane kernels, matrix products, over the reals | exactly when lane kernels equal the scalar sums; exactly in which shapes products stay within half a quantization step an entry |
| `SessionAuth` | sessions, request windows and login throttling, for every clock trace | 1000 a window, 2000 an interval, none after the timeout; seven failures a window; no modest session is refused |
| `Shutdown`, `Arena`, `GpuMemory` | small concurrent state machines on machine words | drain verdicts, disjoint grants, conserved bytes, each with the exact condition |
| `Framing`, `Tokenizer`, `WhitespaceScan` | token codec, frames, greedy tokenizer, blocked scan | round trips with their exact conditions; blocked scan equals the scalar one |
| `Canary`, `Thresholds` | the canary controller and its alert levels | the rollout ends exactly when it has a step; which decision each analysis makes, which calls lower the weight and when decisions rest on fresh samples |
| `Wrappers`, `MachineWords` | `Option` and `Result`; bytes and word sizes | shared by the rest |

How the models are built:

- Code that works by updating objects or arrays is a class or a method with a loop, proved against a function on
  values; theorems are about those functions and about runs of them.
- Concurrent code is a step relation. A run is any sequence of enabled steps, so a theorem about runs holds in every
  interleaving. Writing a frame under the writer lock is one step that succeeds or writes nothing.
- Machine words wrap where the source's do; the reals stand for `f32` and `f64`. The exponential is any function that
  is positive, increasing and turns sums into products; negative infinity is `None`.
- Clock readings, token comparison, fresh session ids, model outputs, UTF-8 validity and scheduling are parameters or
  free choices of a step.

Several properties one might expect of the source do not hold of the code for all inputs. The code is modelled as it
is, and the exact condition is proved together with a case that fails: `QuantizedMatmul.WithinExactly` with
`QuantizedMatmul.UnalignedMisses` (rows are cut into blocks across row ends but looked up per row) and
`QuantizedMatmul.LanesMiss` (the 4-bit lane kernel takes a column too many when seven are left over; on one block,
`SimdDot.LanesEqualScalar` with `SimdDot.LanesTakeOneMore`), `KvReference.AppendLosesItself` with
`KvReference.PageStranded` (an append can evict its own sequence), `KvReference.ReadsRightExactly` with
`KvReference.WindowMisreads` (reads after window eviction), `Shutdown.CompleteIsFinal` with `Shutdown.LateGuard` (a
half-done `track` can outlive a `Complete`), `Arena.GrantSound` with `Arena.WrapOverlaps` and `GpuMemory.ReserveExact`
with `GpuMemory.OverflowGrantsTooMuch` (word overflow), `Tokenizer.TokenSurvives` with `Tokenizer.InteriorBlankBreaks`
(blank lines shift token ids), `Canary.BoundedExactly` with `Canary.NoStepsNeverEnds` (an empty step list),
`Canary.FreshExactly` with `Canary.StaleDecision` (samples outlive an ending), `Canary.LoweringCalls` with
`Canary.StartLowers` (a restart after completion), `ControlledInference.StopCodeMeans` with
`ControlledInference.NameLooksCancelled` (error codes read back from text). `Canary.RolloutAdvances` also shows that
the last configured weight is never reached by advancing, although the default steps end in 100: promotion comes
first, and unless `start` is called again only `complete` sets 100.

## Model

| member | source | states |
|---|---|---|
| `IpcSafety.StepKeeps` | core-runtime/src/ipc/server.rs:76-276 | every enabled step of reader, tasks, worker and clocks keeps: the active map and the holders of ids agree both ways, every frame names a task that held its id, nothing but an error frame follows an acknowledged cancel, each task's position matches exactly the frames it wrote |
| `IpcSafety.RunKeeps` | core-runtime/src/ipc/server.rs:76-276 | the same in every state of every run |
| `IpcTheorems.CancelFence` | core-runtime/src/ipc/server.rs:184-205 | once `CancelResponse{cancelled: true}` for a stream is on the wire, any later frame of that stream is its error frame, in every interleaving (that the response comes is `IpcOutcomes.CancelReaches`) |
| `IpcTheorems.CancelStops` | core-runtime/src/ipc/stream_bridge.rs:53-92 | from the moment its token is cancelled, a stream writes at most one more frame, an error frame, and finishes within seven steps of its own, whatever the others do; how long a step waits for the writer is not bounded |
| `IpcTheorems.OneFinalFrame` | core-runtime/src/ipc/handler.rs:331-472 | a finished stream whose writes succeeded wrote data frames that are exactly the first items of the worker, in order, and then one final frame; a clean one means all items arrived and the worker ended with Complete |
| `IpcTheorems.NothingAfterFinal` | core-runtime/src/ipc/server.rs:134-151 | of any two frames of one stream the earlier is a data frame, so nothing follows a final one, write failures or not |
| `IpcTheorems.OverdueNeverClean` | core-runtime/src/scheduler/worker_streaming.rs:15-83 | a worker overdue or cancelled before it concluded never makes its stream look complete, however the run goes on |
| `IpcTheorems.OneTaskPerId` | core-runtime/src/ipc/server.rs:248-256 | an id is in the active map exactly while one task holds it, and maps to that task's token |
| `IpcTheorems.OneReply` | core-runtime/src/ipc/server.rs:261-276 | a non-streaming request replies at most once, exactly once when its write succeeds, and only after its id was released |
| `IpcTheorems.ExitCancelsAll` | core-runtime/src/ipc/server.rs:237-241 | after the read loop has exited every task that still holds an id is cancelled |
| `IpcTheorems.HandshakeFirst` | core-runtime/src/ipc/handler.rs:231-242 | when authentication is required, an accepted handshake precedes anything handed to the queue; a stream needs one in any case |
| `IpcOutcomes.CancelReaches` | core-runtime/src/ipc/server.rs:184-205 | in every run, an authenticated cancel of an id some task holds cancels that task and no other and the reader's next write says `cancelled: true`; of an id nobody holds it cancels nothing and the answer says that |
| `IpcOutcomes.CancelRefused` | core-runtime/src/ipc/server.rs:184-209 | without a valid session it is answered 401 and cancels nothing |
| `IpcOutcomes.StreamTakenOn` | core-runtime/src/ipc/server.rs:111-156 | a streaming request becomes a new, unstopped task if and only if there is a session and no task holds its id; otherwise 401 or 409 and no task |
| `IpcOutcomes.InferenceTakenOn` | core-runtime/src/ipc/server.rs:160-181 | the same for a non-streaming request, a session needed only if authentication is required |
| `IpcOutcomes.SessionExactly` | core-runtime/src/ipc/server.rs:213-222 | a connection has a session if and only if some handshake on it was accepted |
| `IpcOutcomes.RefusalCloses` | core-runtime/src/ipc/server.rs:160-233 | a refused handshake, or a request that needed one, is answered 401 and ends the connection |
| `IpcOutcomes.OthersAnswered` | core-runtime/src/ipc/server.rs:100-235 | a malformed message is answered 400 and read past; an error of the handler 500 and ends the connection; a response ends it only if it cannot be written |
| `IpcOutcomes.RefusalGoesOn` | core-runtime/src/ipc/server.rs:111-209 | after a cancel's answer, a 409, or a stream's 401 the connection goes on, written or not |
| `IpcOutcomes.RelaysNext` | core-runtime/src/ipc/handler.rs:417-457 | while nobody stops it a waiting relay can always move on: three polls, a check and a write put exactly the next item on the wire, as data, as the clean end or as the worker's error |
| `IpcOutcomes.DeadlineStops` | core-runtime/src/ipc/handler.rs:414-431 | from the moment its timer has fired a stream whose polls find their budget writes at most two more frames and finishes within eight steps of its own, whatever is on its channel |
| `IpcOutcomes.DeadlineReported` | core-runtime/src/ipc/handler.rs:426-431 | polling the fired timer cancels the token and the next frame is the deadline's error |
| `IpcOutcomes.CancelReported` | core-runtime/src/ipc/handler.rs:418-425 | polling the cancelled token leads to the cancellation's error frame |
| `IpcOutcomes.HangupReported` | core-runtime/src/ipc/handler.rs:457-467 | a channel closed without a terminal leads to an error frame, never to a clean end |
| `IpcOutcomes.WorkerCan` | core-runtime/src/scheduler/worker_streaming.rs:25-62 | a queued request runs if and only if neither a cancel nor its deadline is seen first; a running one can emit if and only if fewer than 32 items wait |
| `IpcOutcomes.UnrunEnds` | core-runtime/src/scheduler/worker_streaming.rs:31-60 | a request that is not run ends with the rejection, the engine's refusal, or the text of the stop that came first |
| `IpcOutcomes.RunEnds` | core-runtime/src/engine/inference_streaming.rs:27-41 | one that ran ends with its failure, with a stop seen after it, or cleanly |
| `IpcOutcomes.AnswerCan` | core-runtime/src/ipc/handler_inference.rs:83-97 | a result or a worker's failure can end the wait at any time, a stop if and only if its cause is there |
| `IpcOutcomes.AnswerWritten` | core-runtime/src/ipc/server.rs:268-276 | an answer given is the reply written, after the id is released |
| `IpcCauses.TokensInOrder` | core-runtime/src/ipc/handler.rs:385-446 | the data frames of a stream are the chunks its worker emitted, in order from the first; at most 32 wait |
| `IpcCauses.CleanMeansConcluded` | core-runtime/src/engine/inference_streaming.rs:27-41 | a clean end on the wire means the worker concluded with no failure, and the client has everything it emitted |
| `IpcCauses.EndsAsConcluded` | core-runtime/src/ipc/handler.rs:444-457 | a finished stream none of whose frames failed ends with one final frame; if the relay took a terminal it is that terminal's, and only a cancellation keeps a clean end from the client |
| `IpcCauses.ReasonsTrue` | core-runtime/src/ipc/handler.rs:331-472 | the reason of every error frame is an event of the run: cancelled only if the client or the end of the connection said so, deadline only if the timer fired, a worker's error only if the worker ended with it |
| `IpcCauses.ReplyIsDecided` | core-runtime/src/ipc/server.rs:261-276 | a non-streaming reply is the outcome decided for its request, only a failed write loses it, and a stop is reported only if it happened |
| `ControlledInference.StopLasts` | core-runtime/src/engine/request_control.rs:46-74 | a stop once seen is seen ever after, and a cancellation stays one although the deadline passes too (which of the two a run reports is `ControlledInference.StopExact`) |
| `ControlledInference.StopWins` | core-runtime/src/engine/inference.rs:134-222 | a stop visible at any checkpoint of the run gives Cancelled or DeadlineExceeded whatever the backend returned; at entry even for a model that is not loaded |
| `ControlledInference.SuccessExactly` | core-runtime/src/engine/inference.rs:134-222 | a success if and only if the request is admissible, no look at the control ever showed a stop, and the backend finished on its own; the output is then the backend's |
| `ControlledInference.StopExact` | core-runtime/src/engine/request_control.rs:46-74 | a run ends as cancelled if and only if the deciding look shows the flag, or the backend finished so; with the deadline's error, and its figure, if and only if that look shows the clock at or past it and no flag, or the backend timed out |
| `ControlledInference.RefusedExactly` | core-runtime/src/engine/inference.rs:134-200 | parameters, a stop at entry, the model, the length, the memory: each refusal exactly when it is the first that applies, with its figures |
| `ControlledInference.BackendFails` | core-runtime/src/engine/inference.rs:174-222 | a backend that fails in a run nothing stops is reported with its own message |
| `ControlledInference.StopClassified` | core-runtime/src/ipc/handler.rs:483-502 | the error text of a stop is classified back as that stop |
| `ControlledInference.StopCodeMeans` | core-runtime/src/ipc/handler.rs:483-502 | a stop code means that stop, or an error carrying the stop's phrase in a model id or message from outside, and nothing else |
| `ControlledInference.MemoryCode` | core-runtime/src/ipc/handler.rs:483-502 | a memory refusal is coded AdmissionRejected |
| `ControlledInference.ContextCode` | core-runtime/src/ipc/handler.rs:483-502 | a prompt too long is coded InputInvalid |
| `ControlledInference.ModelCode` | core-runtime/src/ipc/handler.rs:483-502 | a missing model is coded as such if and only if its id holds none of the phrases looked for earlier |
| `ControlledInference.FailureCode` | core-runtime/src/ipc/handler.rs:483-502 | a failure whose message holds no letter that begins a phrase is coded ExecutionFailed |
| `ControlledInference.NameLooksCancelled` | core-runtime/src/ipc/handler.rs:483-502 | such an error: a missing model named like the phrase is coded Cancelled |
| `ControlledInference.HandleInference` | core-runtime/src/ipc/handler_inference.rs:36-138 | the worker's flag is set on every way out, an error response has empty output, a ready result wins over a stop and a cancel over the deadline, a success is exactly the worker's result |
| `ControlledInference.StopIsAnswered` | core-runtime/src/ipc/handler_inference.rs:121-138 | the error text of a stopped run is read back as an empty response coded Cancelled or DeadlineExceeded |
| `ControlledInference.AnswerRun` | core-runtime/src/ipc/handler_inference.rs:60-138 | end to end, through run, error text and handler: a stop visible at entry, or at any checkpoint of a run that is admitted, is answered with an empty response coded as a stop, whichever arm of the select fires, and by the worker's answer as the stop the deciding look shows; a success means no checkpoint showed one; the handler leaves the flag it made set |
| `ControlledInference.CodeExact` | core-runtime/src/ipc/handler_inference.rs:60-138 | the caller's code is Cancelled, or DeadlineExceeded, if and only if the deciding look shows that stop, the backend finished so, or a text from outside carries its phrase |
| `TokenStream.RunStream` | core-runtime/src/engine/inference_streaming.rs:15-43 | every outcome sends the generated items and then exactly one terminal; it is Complete if and only if the model ran without a failure and no stop is seen, and a failure is sent as that failure; a receiver that stops listening gets the first of them |
| `TokenStream.TerminalExact` | core-runtime/src/engine/inference_streaming.rs:27-41 | the terminal of each outcome, with its text, and when it is Complete |
| `TokenStream.Collect` | core-runtime/src/engine/streaming.rs:55-70 | the tokens before the first terminal and that terminal; a channel without one is an error |
| `TokenStream.TokensExact` | core-runtime/src/engine/streaming.rs:55-70 | text frames are skipped; a stream of tokens collects to all of them in order |
| `TokenStream.RunAndCollect` | core-runtime/src/engine/streaming.rs:55-70 | collecting a run's channel gives the run's tokens and its terminal, Complete exactly without failure and stop |
| `KvCache.KvCacheManager.constructor` | core-runtime/src/memory/kv_cache_core.rs:71-80 | a new cache is the empty reference cache and has leaked nothing |
| `KvCache.KvCacheManager.PagesOwnedOnce` | core-runtime/src/memory/kv_cache_core.rs:157-217 | no page belongs to two live sequences or twice to one; the allocated pages are exactly the owned and the leaked ones, which are disjoint |
| `KvCache.KvCacheManager.Touch` | core-runtime/src/memory/kv_cache_core.rs:51-54 | moves the id to the back of the reference access order, live or not |
| `KvCache.KvCacheManager.AllocateSequence` | core-runtime/src/memory/kv_cache_core.rs:83-107 | adds an empty sequence under a new id, leaks nothing |
| `KvCache.KvCacheManager.AppendKv` | core-runtime/src/memory/kv_cache_core.rs:110-185 | the reference append, whose outcomes `KvReference.AppendFits`, `KvReference.AppendEvicts` and `KvReference.AppendLosesItself` state; a page is leaked exactly when the eviction took the appending sequence and its pages freed one |
| `KvCache.KvCacheManager.FreeSequence` | core-runtime/src/memory/kv_cache_core.rs:198-209 | removes that sequence and returns its pages; all other sequences keep their pages and rows |
| `KvCache.KvCacheManager.EvictLru` | core-runtime/src/memory/kv_cache_core.rs:211-217 | frees the front of the access order as the reference does |
| `KvCache.KvCacheManager.Reset` | core-runtime/src/memory/kv_cache_core.rs:224-228 | forgets every sequence and leaks every allocated page |
| `KvCache.KvCacheManager.ReadKv` | core-runtime/src/memory/kv_cache_ops.rs:11-72 | copies out the reference row at that position, or leaves the buffers alone and reports the reference error |
| `KvCache.KvCacheManager.AttentionScores` | core-runtime/src/memory/kv_cache_ops.rs:75-122 | each score is the product with the reference key at that position; scores without a row keep their value |
| `KvCache.KvCacheManager.EvictBeyondWindow` | core-runtime/src/memory/kv_cache_ops.rs:125-155 | drops exactly the pages wholly before the window and returns them to the pool |
| `KvCache.Replay` | core-runtime/src/memory/kv_cache_core.rs:83-228 | any run of calls on a new paged cache is the run of the reference; pages have one owner; the allocated pages are exactly the live ones if and only if no call of the run has leaked |
| `KvCache.ReplayAndRead` | core-runtime/src/memory/kv_cache_ops.rs:11-72 | after any run, reading from the pages gives the pair appended at that position, unless a window eviction has dropped pages of the sequence |
| `KvCache.ReplayAndScore` | core-runtime/src/memory/kv_cache_ops.rs:75-122 | and scoring against them gives the products with the appended keys |
| `KvReference.ReadsHistory` | core-runtime/src/memory/kv_cache_ops.rs:11-55 | in every run, a live sequence from which no window eviction has dropped pages holds exactly what was appended to it, and a read returns the pair appended at that position, whatever hits the others |
| `KvReference.NotWindowed` | core-runtime/src/memory/kv_cache_ops.rs:125-136 | a sequence from which callers never evict is one of those |
| `KvReference.ScoresHistory` | core-runtime/src/memory/kv_cache_ops.rs:75-122 | the scores of such a sequence are the products with the appended keys |
| `KvReference.AppendLosesItself` | core-runtime/src/memory/kv_cache_core.rs:157-178 | an append evicts its own live sequence if and only if it needs a page, the pool is used up and no other id, live or dead, is in the order; it reports not-found if its pages freed one and out-of-memory if not, and not-found of a live sequence never otherwise |
| `KvReference.AppendFits` | core-runtime/src/memory/kv_cache_core.rs:110-156 | an append that needs no page, or finds one in the pool, succeeds: its rows and the new one, every other sequence as it was |
| `KvReference.AppendEvicts` | core-runtime/src/memory/kv_cache_core.rs:157-178 | one that needs a page of a used-up pool frees the front of the other ids: if live, exactly it is gone and the append succeeds if and only if its pages make room; if dead, nothing is gone and the append fails for it |
| `KvReference.DeadSequence` | core-runtime/src/memory/kv_cache_core.rs:110-217 | a call that names a dead sequence reports it and touches no other |
| `KvReference.WindowExact` | core-runtime/src/memory/kv_cache_ops.rs:125-156 | a window eviction drops from the front all pages before the window and its overlap and no more, and hands exactly them back |
| `KvReference.PageStranded` | core-runtime/src/memory/kv_cache_core.rs:157-178 | a run in which it happens: in a pool of one page, the append after sixteen |
| `KvReference.NoPagesAtAll` | core-runtime/src/memory/kv_cache_core.rs:157-178 | and one that ends out of memory: the first append in a pool without pages |
| `KvReference.ReadsShifted` | core-runtime/src/memory/kv_cache_ops.rs:11-55 | with window eviction a live sequence keeps a tail of its history behind some zero rows, and a read beyond them finds the row appended `len - kept` positions later |
| `KvReference.ReadsRightExactly` | core-runtime/src/memory/kv_cache_ops.rs:47-72 | a live sequence without appended zero rows reads right at every position if and only if no window eviction of it has reported dropped pages |
| `KvReference.WindowMisreads` | core-runtime/src/memory/kv_cache_ops.rs:125-155 | a run in which it does not: append, evict the page, append; position 0 then reads a zero row |
| `KvReference.EvictsLeastRecent` | core-runtime/src/memory/kv_cache_core.rs:211-217 | when callers name only live ids, the evicted sequence is the one least recently allocated, appended to or read |
| `Paged.PageTable.AllocatePage` | core-runtime/src/memory/paged.rs:105-145 | a blank page nobody holds, or none exactly when all are handed out; other pages unchanged |
| `Paged.PageTable.Free` | core-runtime/src/memory/paged.rs:120-128 | un-allocates exactly those pages and touches no other |
| `Paged.PageTable.WriteTo` | core-runtime/src/memory/paged.rs:40-47 | writes one slot of one page |
| `Paged.ReadAfterWrite` | core-runtime/src/memory/paged.rs:40-59 | a slot reads back what was written to it, every other slot what it held |
| `FlashAttention.Forward` | core-runtime/src/engine/flash_attn.rs:44-100 | for every block size each output coordinate is the plain softmax-weighted sum of its column; an empty sequence and the space beyond the head dimension are untouched |
| `FlashAttention.ComputeBlockScores` | core-runtime/src/engine/flash_attn.rs:103-122 | the scores of the block's positions and their maximum |
| `FlashAttention.UpdateAccumulator` | core-runtime/src/engine/flash_attn.rs:126-167 | keeps the sums equal to the exponential sums of all positions so far, relative to the greatest score so far |
| `FlashAttention.Rescale` | core-runtime/src/engine/flash_attn.rs:126-167 | changing the reference score multiplies the value sum by the correction factor |
| `FlashAttention.QuotientIsAttention` | core-runtime/src/engine/flash_attn.rs:44-100 | the quotient of the two sums is attention, for every reference score |
| `FlashAttention.AttentionBounded` | core-runtime/src/engine/flash_attn.rs:44-100 | each output coordinate lies between the least and the greatest value of its column |
| `Vectors.DotProduct` | core-runtime/src/memory/kv_cache_core.rs:219-221 | the sum of products over the shorter length |
| `UtcDate.FollowsCalendar` | core-runtime/build.rs:67-80 | day 0 is 1970-01-01, every date is valid, day n+1 is the Gregorian successor of day n |
| `UtcDate.SecondsFollowCalendar` | core-runtime/build.rs:67-80 | the same from seconds: 86400 s later is the next date |
| `UtcDate.StrictlyIncreasing` | core-runtime/build.rs:67-80 | a later day has a later date |
| `UtcDate.DateRoundTrip` | core-runtime/build.rs:67-80 | counting out months and years inverts the code both ways, so no date from 1970 on is skipped or repeated |
| `UtcDate.YearOfEraFits` | core-runtime/build.rs:72 | the year formula finds the year whose days include the given day of the era |
| `UtcDate.MonthLength` | core-runtime/build.rs:75-77 | the month formula's starts are the running sums of the true month lengths, and it finds the month of each day |
| `SimdDot.DotQ8Scalar` | core-runtime/src/engine/simd_matmul.rs:157-164 | the scaled sum over the common prefix of the signed bytes |
| `SimdDot.DotQ8Avx2` | core-runtime/src/engine/simd_matmul.rs:87-105 | the 8-lane kernel with remainder gives that same sum |
| `SimdDot.DotQ4Scalar` | core-runtime/src/engine/simd_matmul.rs:166-179 | the scaled sum over the common prefix of the nibbles |
| `SimdDot.DotQ4Avx2` | core-runtime/src/engine/simd_matmul.rs:111-128 | the 8-lane kernel gives the sum over whole groups of lanes and then to the end, taking what lies beyond a short input into its last lanes; inside the input that is the scalar sum |
| `SimdDot.LanesEqualScalar` | core-runtime/src/engine/simd_matmul.rs:111-179 | on blocks of n columns the 4-bit lane kernel gives the scalar sum, for all values and inputs, if and only if n mod 8 is not 7 |
| `SimdDot.LanesTakeOneMore` | core-runtime/src/engine/simd_matmul.rs:111-128 | where it is 7, an input on which the scalar sum is 0 and the lanes give 7 |
| `SimdDot.LaneStep` | core-runtime/src/engine/simd_matmul.rs:143-151 | one multiply-add advances the folded lanes by exactly eight terms of the scalar sum |
| `SimdDot.ScalarQ4Remainder` | core-runtime/src/engine/simd_matmul.rs:194-212 | adds exactly the terms from the given byte to the end of bytes or input |
| `SimdDot.UnpackQ4` | core-runtime/src/engine/simd_matmul.rs:185-192 | the eight values of four packed bytes, in order |
| `SimdDot.PackRoundTrip` | core-runtime/src/engine/quantize.rs:123-127 | unpacking a packed pair of values between -8 and 7 gives the pair back |
| `SimdDot.StoredForms` | core-runtime/src/engine/simd_matmul.rs:157-192 | stored bytes are two's complement; of two packed values the first is in the low half, both with 8 added |
| `Quantize.QuantizeQ8` | core-runtime/src/engine/quantize.rs:87-108 | decoding the bytes gives each entry over its block's scale, rounded, with zeros after the end; one scale a block, its maximum over 127 |
| `Quantize.QuantizeQ4` | core-runtime/src/engine/quantize.rs:110-135 | the same with nibbles and the maximum over 7 |
| `Quantize.QuantError` | core-runtime/src/engine/quantize.rs:93-101 | a stored value is within half a step, block maximum over twice the range, of the original |
| `Quantize.RoundHalves` | core-runtime/src/engine/quantize.rs:87-130 | halves are rounded away from zero, both signs alike |
| `Quantize.RowError` | core-runtime/src/engine/quantize.rs:160-184 | a row of quantized entries differs from the exact row product by at most the sum of half steps times input magnitudes |
| `QuantizedMatmul.MatmulF32` | core-runtime/src/engine/quantize.rs:140-156 | row i is the exact product over the columns the input reaches, whenever those entries exist |
| `QuantizedMatmul.MatmulQ8` | core-runtime/src/engine/quantize.rs:160-184 | row i is the product of the dequantized entries from the row's first block on, with either kernel, whenever the blocks the input reaches are stored |
| `QuantizedMatmul.MatmulQ4` | core-runtime/src/engine/quantize.rs:188-213 | the same for nibbles; with the lane kernel and seven columns left over, one more column takes part |
| `QuantizedMatmul.Multiply` | core-runtime/src/engine/quantize.rs:53-68 | quantize then multiply: it runs exactly when every block the input reaches is stored; in a sound shape it does, and each row is the F32 product (F32), or within block-max/254 (Q8) or block-max/14 (Q4) times the input magnitude of it, summed over the columns of the input |
| `QuantizedMatmul.ProductError` | core-runtime/src/engine/quantize.rs:160-213 | that bound for the entries of any quantized data whose rows fill whole blocks, or a single row |
| `QuantizedMatmul.RowsAligned` | core-runtime/src/engine/quantize.rs:160-177 | rows lie where the products look for them if and only if there is at most one row or the columns fill whole blocks |
| `QuantizedMatmul.WithinExactly` | core-runtime/src/engine/quantize.rs:160-213 | for all data, inputs of length m and surroundings, the 8-bit products, and the 4-bit ones with either kernel, run and have every row within its budget over the input's columns, if and only if there is no row or no input, or (one row or columns in whole blocks) and not (lane kernel, m < cols, m mod 8 = 7) |
| `QuantizedMatmul.MisplacedRow` | core-runtime/src/engine/quantize.rs:160-177 | with two or more rows that do not fill whole blocks there is data on which row 1, if stored at all, misses its budget, for inputs of every length above 0 |
| `QuantizedMatmul.LaneMissesRow` | core-runtime/src/engine/quantize.rs:188-213 | with the lane kernel and seven columns left over, row 0 of all-one data misses its budget on an all-zero input, for every row width above the input's length |
| `QuantizedMatmul.UnalignedMisses` | core-runtime/src/engine/quantize.rs:87-184 | through QuantizeQ8 and MatmulQ8, in every such shape: a block index is out of range, or row 1 comes out beyond its budget; which of the two is said exactly |
| `QuantizedMatmul.LanesMiss` | core-runtime/src/engine/quantize.rs:110-213 | through QuantizeQ4 and MatmulQ4 with the lane kernel, in every other unsound shape, one row of 32 columns and seven inputs among them: row 0 of an all-zero input comes out beyond its budget |
| `QuantizedMatmul.LanesFit` | core-runtime/src/engine/quantize.rs:193-210 | the 8-lane kernel stays inside a block of n columns if and only if n mod 8 is not 7 |
| `SessionAuth.RateLimiter.IsRateLimited` | core-runtime/src/ipc/auth_session.rs:44-53 | true exactly before the end of a block |
| `SessionAuth.RateLimiter.RecordFailure` | core-runtime/src/ipc/auth_session.rs:55-79 | a new window, one more attempt, or from the fifth on a block as well |
| `SessionAuth.Authenticator.Authenticate` | core-runtime/src/ipc/auth.rs:68-114 | the step a login makes, with its reply |
| `SessionAuth.Authenticator.Validate` | core-runtime/src/ipc/auth.rs:116-172 | the step of a validation with its reply, which `SessionAuth.ValidatedExactly` states by the clock |
| `SessionAuth.Authenticator.Sweep` | core-runtime/src/ipc/auth.rs:174-180 | the step of a sweep, which `SessionAuth.SweptExactly` states by the clock |
| `SessionAuth.OneWindow` | core-runtime/src/ipc/auth.rs:138-164 | at most 1000 validations of a session pass in one request window, in every run |
| `SessionAuth.AnyInterval` | core-runtime/src/ipc/auth.rs:138-164 | at most 2000 pass in any closed 60 s interval |
| `SessionAuth.NoneAfterTimeout` | core-runtime/src/ipc/auth.rs:128-136 | in any run a validation that passes comes no later than the timeout after the session was created |
| `SessionAuth.ValidatedExactly` | core-runtime/src/ipc/auth.rs:116-163 | past its timeout a session is refused as expired and removed; up to it the validation is counted and passes exactly if its 60 s window is over or has fewer than 1000; no other session changes |
| `SessionAuth.SweptExactly` | core-runtime/src/ipc/auth.rs:174-180 | a sweep keeps exactly the sessions no older than the timeout when it looks at them, unchanged |
| `SessionAuth.LoginExactly` | core-runtime/src/ipc/auth.rs:68-114 | a login is refused while blocked, the right token too and with no effect; otherwise it is granted a new session exactly if the token matches |
| `SessionAuth.FifthFailureBlocks` | core-runtime/src/ipc/auth_session.rs:44-79 | four failures counted in a window and one more within 60 s of its first block every login for 30 s |
| `SessionAuth.ModestUse` | core-runtime/src/ipc/auth.rs:151-163 | a session validated at most 1000 times in every closed 60 s interval, the uses its window already counts included, is never refused for its rate, in runs of any length |
| `SessionAuth.CleanupUnseen` | core-runtime/src/ipc/auth.rs:174-180 | any run passes exactly the validations that it passes with all its sweeps left out |
| `SessionAuth.AttemptWindow` | core-runtime/src/ipc/auth_session.rs:55-79 | without a success an attempt window holds at most seven failed token checks |
| `SessionAuth.SevenHappen` | core-runtime/src/ipc/auth_session.rs:55-79 | and seven do occur, the last exactly 60 s after the first |
| `SessionAuth.FromFirstFailure` | core-runtime/src/ipc/auth_session.rs:55-79 | within T of the first failure at most 7*(floor(T/60 s)+1) failed checks |
| `SessionAuth.LoginThenValidate` | core-runtime/src/ipc/auth.rs:92-105 | a granted id validates within its timeout, the failure count is cleared, other sessions are untouched |
| `SessionAuth.NeverLockedOut` | core-runtime/src/ipc/auth_session.rs:44-53 | the right token is granted from 30 s after the last call on, whatever the calls were |
| `SessionAuth.FewFailuresNoBlock` | core-runtime/src/ipc/auth_session.rs:73-78 | fewer than five failed checks never block |
| `Shutdown.RunKeeps` | core-runtime/src/shutdown.rs:57-66 | in every interleaving the counter is the number of live guards modulo 2^32, the state is Running exactly until `initiate` is called, and Draining only while some call has not returned |
| `Shutdown.NoNewRequests` | core-runtime/src/shutdown.rs:48-90 | once draining has begun it never runs again, no `track` passes its check, and what is in flight later was in flight or half tracked by then |
| `Shutdown.CompleteIsFinal` | core-runtime/src/shutdown.rs:92-117 | after a `Complete` observation nothing is ever in flight again if and only if no `track` was half done |
| `Shutdown.LateGuard` | core-runtime/src/shutdown.rs:57-90 | a run from the start in which it is not: a check, a whole `initiate` that returns Complete, and then the addition |
| `Shutdown.ReturnedMeansStopped` | core-runtime/src/shutdown.rs:74-90 | in every run, once every `initiate` has returned the state is Stopped |
| `Shutdown.TimeoutCounts` | core-runtime/src/shutdown.rs:92-117 | Complete exactly with no live guard, Timeout exactly with one and the time up, with the number of guards |
| `Shutdown.PassesCheck` | core-runtime/src/shutdown.rs:48-67 | a `track` passes its check if and only if it can read the state at once and that is Running |
| `Shutdown.PhaseExactly` | core-runtime/src/shutdown.rs:74-90 | `initiate` sets Draining and then Stopped, whatever the state was; nothing else changes it |
| `Shutdown.ReturnsWhatItSaw` | core-runtime/src/shutdown.rs:81-118 | in every run a call returns what its drain loop saw at one moment: no request, or so many when its time was up |
| `Shutdown.TrackAndDrop` | core-runtime/src/shutdown.rs:57-66 | while Running a `track` that reads the state gets its guard and counts it, and dropping it restores the state |
| `Arena.GrantsDisjoint` | core-runtime/src/memory/arena.rs:36-58 | in every interleaving whose grants do not wrap, between resets, granted ranges are pairwise disjoint, inside the capacity and start at a multiple of their power-of-two alignment; refused requests may be of any size |
| `Arena.GrantSound` | core-runtime/src/memory/arena.rs:36-52 | a granted range lies between the offset and the capacity if and only if neither addition wraps |
| `Arena.AllFitNeverWraps` | core-runtime/src/memory/arena.rs:36-52 | no grant of a run wraps if every request together with the capacity stays within a word |
| `Arena.StartAligned` | core-runtime/src/memory/arena.rs:39 | clearing the low bits leaves a multiple of the alignment |
| `Arena.StartLeast` | core-runtime/src/memory/arena.rs:39 | the least one from the offset on, so no space is skipped that would do |
| `Arena.AllocGrants` | core-runtime/src/memory/arena.rs:36-52 | alone, a request is granted exactly when its end computed in a word is within the capacity, which is its true end if nothing wraps; a refusal changes nothing |
| `Arena.LeavesExactly` | core-runtime/src/memory/arena.rs:36-54 | a thread gives up if and only if it won the exchange or the end it computed exceeds the capacity; one that lost tries again with the same request |
| `Arena.ResetServesAnew` | core-runtime/src/memory/arena.rs:56-59 | after a reset requests are served as by a new arena |
| `Arena.WrapOverlaps` | core-runtime/src/memory/arena.rs:40 | with a size that wraps the offset, two grants overlap |
| `GpuMemory.Conserved` | core-runtime/src/memory/gpu.rs:41-60 | in every interleaving the counter is granted bytes plus bytes awaiting undo, modulo 2^64 |
| `GpuMemory.WithinLimit` | core-runtime/src/memory/gpu.rs:41-60 | without overflow granted bytes never exceed the limit, though the counter may |
| `GpuMemory.ReserveExact` | core-runtime/src/memory/gpu.rs:42-43 | a reservation keeps the counter exact if and only if it does not overflow it |
| `GpuMemory.ReserveGrants` | core-runtime/src/memory/gpu.rs:41-54 | short of an overflow, granted exactly when it fits beside all bytes counted |
| `GpuMemory.RefusalUndone` | core-runtime/src/memory/gpu.rs:45-51 | a refusal and its undo restore the state |
| `GpuMemory.OverflowGrantsTooMuch` | core-runtime/src/memory/gpu.rs:42-43 | a size that wraps the counter is granted beyond the limit |
| `Framing.Encode` | core-runtime/src/ipc/encoding.rs:36-43 | the count modulo 2^32 and the tokens, little-endian |
| `Framing.Decode` | core-runtime/src/ipc/encoding.rs:45-70 | the decoding, with both length errors |
| `Framing.DecodeEncode` | core-runtime/src/ipc/encoding.rs:36-70 | decoding undoes encoding for every list shorter than 2^32, and refuses the encoding of a longer one |
| `Framing.EncodeDecode` | core-runtime/src/ipc/encoding.rs:36-70 | bytes that decode are the encoding of what they decode to |
| `Framing.LittleEndian` | core-runtime/src/ipc/encoding.rs:36-43 | words are written least significant byte first |
| `Framing.DecodeErrors` | core-runtime/src/ipc/encoding.rs:45-68 | refused exactly: bytes without a count, and bytes whose number is not the count's, with both numbers |
| `Framing.Socket.ReadFrame` | core-runtime/src/ipc/server.rs:33-51 | takes one frame off the input, or the errors end-of-file and too-large |
| `Framing.Socket.WriteFrame` | core-runtime/src/ipc/server.rs:54-63 | appends the frame with its length prefix |
| `Framing.FramesRoundTrip` | core-runtime/src/ipc/server.rs:33-63 | a stream of written frames is read back as exactly those frames and then end-of-file if and only if each is within the size limit and shorter than 2^32 |
| `Framing.Truncated` | core-runtime/src/ipc/server.rs:33-63 | cut anywhere, it gives the whole frames before the cut and then end-of-file |
| `WhitespaceScan.ScanBlocks` | core-runtime/src/engine/simd_tokenizer.rs:63-105 | the 32-byte-block scan returns the list of the scan byte by byte |
| `WhitespaceScan.ScanScalar` | core-runtime/src/engine/simd_tokenizer.rs:108-114 | the positions in order |
| `WhitespaceScan.PositionsExact` | core-runtime/src/engine/simd_tokenizer.rs:108-114 | the positions are increasing and exactly those of the bytes 32, 10 and 9 |
| `WhitespaceScan.MaskBits` | core-runtime/src/engine/simd_tokenizer.rs:88-94 | the bits read out of the mask are the lanes put in |
| `Tokenizer.FromVocab` | core-runtime/src/engine/simd_tokenizer.rs:29-55 | the token list without blank lines and the ids by line number |
| `Tokenizer.LinesExact` | core-runtime/src/engine/simd_tokenizer.rs:29-47 | lines hold no newline and joined by newlines make up the file |
| `Tokenizer.IdsIndexList` | core-runtime/src/engine/simd_tokenizer.rs:29-55 | ids index the token list if and only if no token follows a blank line |
| `Tokenizer.LongestMatch` | core-runtime/src/engine/simd_tokenizer.rs:144-155 | no longer entry matches; a match gives its id, and only without any the single byte is used |
| `Tokenizer.FindLongestMatch` | core-runtime/src/engine/simd_tokenizer.rs:144-155 | the search from 16 bytes down finds that match |
| `Tokenizer.Encode` | core-runtime/src/engine/simd_tokenizer.rs:129-141 | the loop ends and gives the greedy tokens |
| `Tokenizer.Decode` | core-runtime/src/engine/simd_tokenizer.rs:158-168 | the concatenated entries, the first unknown id, or invalid text |
| `Tokenizer.DecodeExact` | core-runtime/src/engine/simd_tokenizer.rs:158-169 | decoding fails if and only if some id is past the list, and reports the first |
| `Tokenizer.RoundTrip` | core-runtime/src/engine/simd_tokenizer.rs:129-168 | with consistent ids, decoding undoes encoding if and only if the encoder never falls back to a raw byte |
| `Tokenizer.FileRoundTrip` | core-runtime/src/engine/simd_tokenizer.rs:29-168 | so it does for a vocabulary file without interior blank lines that holds every byte of the text |
| `Tokenizer.TokenSurvives` | core-runtime/src/engine/simd_tokenizer.rs:29-168 | in every file, a token of at most 16 bytes decodes from its own encoding if and only if no blank line precedes its last line |
| `Tokenizer.InteriorBlankBreaks` | core-runtime/src/engine/simd_tokenizer.rs:29-55 | a file of three lines, the second blank, whose second token does not decode from its own encoding |
| `Canary.CanaryController.Start` | core-runtime/src/deployment/canary.rs:136-139 | progressing, at the first weight, with empty collectors |
| `Canary.CanaryController.Analyze` | core-runtime/src/deployment/canary.rs:141-171 | the step an analysis makes, with its decision |
| `Canary.CanaryController.MakeDecision` | core-runtime/src/deployment/canary.rs:173-199 | the decision for an alert level, with the new phase, weight and collectors |
| `Canary.CanaryController.AdvanceStep` | core-runtime/src/deployment/canary.rs:201-208 | the next weight and empty collectors, if a step is left |
| `Canary.CanaryController.Finish` | core-runtime/src/deployment/canary.rs:215-218 | the step `complete` makes in a run: complete at weight 100, all else unchanged |
| `Canary.CanaryController.Fail` | core-runtime/src/deployment/canary.rs:220-223 | the step `fail` makes in a run: failed at weight 0, all else unchanged |
| `Canary.RolloutAdvances` | core-runtime/src/deployment/canary.rs:136-208 | after `start` with L steps at most max(0, L-2) advances in any run of public calls; and unless `start` is called again or the rollout is ended from outside, the last weight of two or more is never in force |
| `Canary.StartsWalk` | core-runtime/src/deployment/canary.rs:136-139 | calling `start` again walks through the steps to the last weight |
| `Canary.ContinueBound` | core-runtime/src/deployment/canary.rs:186-194 | at most max_cycles-1 continues, less the cycles already spent |
| `Canary.RolloutEnds` | core-runtime/src/deployment/canary.rs:141-195 | more decided analyses than both bounds together include a terminal decision |
| `Canary.WeightNeverDrops` | core-runtime/src/deployment/canary.rs:201-208 | with sorted steps the traffic weight never goes down in a run without `complete` and `fail`, however often `start` is called |
| `Canary.LoweringCalls` | core-runtime/src/deployment/canary.rs:136-223 | in any run with sorted steps a call lowers the weight if and only if it is `fail` above 0, `complete` above 100, or a `start` with a step below 100 left after a `complete` with no step taken since |
| `Canary.LowersExactly` | core-runtime/src/deployment/canary.rs:201-223 | for any steps: `fail` above 0, `complete` above 100, or a move to a smaller step |
| `Canary.StartLowers` | core-runtime/src/deployment/canary.rs:81-90 | with the default steps `complete` and then `start` takes the weight from 100 to 10 |
| `Canary.EndedStays` | core-runtime/src/deployment/canary.rs:141-144 | a complete or failed rollout stays ended, keeps step and cycles and is analyzed as done until `start` is called; its phase and weight change only if it is ended again |
| `Canary.NoStepsNeverEnds` | core-runtime/src/deployment/canary.rs:197-199 | with an empty step list, for every n, a run from `start` with n decided analyses that does not end |
| `Canary.BoundedExactly` | core-runtime/src/deployment/canary.rs:136-208 | some number of decided analyses always brings a terminal one, if and only if the step list is not empty or the sample minimum cannot be met |
| `Canary.SamplesAreRecent` | core-runtime/src/deployment/metrics.rs:114-187 | each collector holds the latest 10000 latencies recorded since the last step was taken, and counts all successes and errors since |
| `Canary.DecisionHasSamples` | core-runtime/src/deployment/canary.rs:153-171 | with a step in the list, an analysis that judges rests on at least min_sample_size records a side since the last step was taken; a minimum above 10000 is never met |
| `Canary.DecisionIsFresh` | core-runtime/src/deployment/canary.rs:153-171 | with a step in the list, such an analysis rests on as many records a side since the weight last changed, unless `start` was called with no step left after an ending that changed it |
| `Canary.StaleDecision` | core-runtime/src/deployment/canary.rs:136-223 | for every step list and every minimum up to 10000, a run in which that happens: the analysis promotes, or advances if there is no step, and no record was made since the change |
| `Canary.FreshExactly` | core-runtime/src/deployment/canary.rs:136-223 | for every step list, all judgements of all runs rest on enough records since the weight last changed if and only if the minimum is 0 or above 10000 |
| `Canary.DecisionMeaning` | core-runtime/src/deployment/canary.rs:173-195 | nothing critical is promoted or advanced, nothing harmless rolled back, a warning promotes and a critical alert rolls back only past the last cycle |
| `Canary.DecisionExactly` | core-runtime/src/deployment/canary.rs:141-199 | with a step in the list, which decision an analysis makes by the state and the figures: timed out exactly past max_duration, advance or promote exactly if every respect is healthy or on a warning past the last cycle, rollback exactly if a limit is breached or on strain past the last cycle, continue otherwise |
| `Canary.MetricsCollector.RecordSuccess` | core-runtime/src/deployment/metrics.rs:113-130 | one more success and its latency, the oldest dropped at capacity |
| `Canary.MetricsCollector.RecordError` | core-runtime/src/deployment/metrics.rs:119-130 | one more error and its latency, the oldest dropped at capacity |
| `Canary.MetricsCollector.Reset` | core-runtime/src/deployment/metrics.rs:181-186 | empty |
| `Thresholds.AlertMonotone` | core-runtime/src/deployment/thresholds.rs:113-195 | a comparison no better in any respect never gets a milder alert, whatever the limits |
| `Thresholds.RollbackExact` | core-runtime/src/deployment/thresholds.rs:113-195 | rollback is called for if and only if some respect is worse than before and at or past its limit |
| `Thresholds.CriticalExact` | core-runtime/src/deployment/thresholds.rs:113-195 | critical or worse if and only if some respect has used four fifths of its allowance |
| `Thresholds.NoAlertExact` | core-runtime/src/deployment/thresholds.rs:145-183 | no alert if and only if each respect is no worse than before or has used less than half of its allowance |

## Left out

- JSON, sockets and pipes, the command line, foreign-function and Python bindings, Kubernetes manifests: plumbing.
- SHA-256, random session ids, constant-time comparison and security scanning: parameters of the steps that use them.
- llama.cpp, ONNX and GPU kernels: the backend is any function of the answers its stop tests get.
- Scheduler queue internals: a queue accepts or refuses; the worker starts, produces items and ends a stream in steps.
- Partial frame writes, and waiting: a write under the writer lock succeeds or writes nothing, and how long it waits for the lock or for a client that does not read is not modelled.
- `f32` rounding and underflow: over the reals the attention correction never becomes zero.
- The NEON kernels and the second tokenizer file: a different instruction set with its own results.
- The Q8 side store of the KV cache (feature `advanced`), statistics counters and locking of the KV cache: sequential calls with the feature off.
- KvCache.Replay: rows have the configured dimension; where an append comes to writing a row of another length, the source panics.
- KvCache.KvCacheManager.ReadKv: the caller's two buffers are distinct, and of the configured dimension where it comes to copying; the source panics on another length.
- Formatting of the date as text: the numbers are modelled, the zero-padded string is not.
- SimdDot.DotQ4Avx2: what the lanes load beyond a short input is a parameter, and that such a load is allowed at all is not stated; an offset past the end of the input, where the source's slice panics, is excluded.
- QuantizedMatmul.MatmulQ8: where a block the input reaches is not stored the source indexes out of range; `QuantizedMatmul.Multiply` models that as not running.
- QuantizedMatmul.MatmulQ4: the same.
- The F32 format's storage as little-endian bytes: the entries are modelled as the numbers they encode.
- SessionAuth.OneWindow: request and attempt counters are unbounded, so a wrap of 64 bits is not modelled; neither are `last_activity` and connection counts.
- Logins that interleave between the block test and the recorded failure: the bounds are for serialised logins.
- Arena.GrantsDisjoint: alignment 0, and the index panic of an empty range starting at the capacity, are not modelled.
- Notification wake-ups of the drain loop: an observation may happen at any time; that a waiter is woken is not stated.
- Canary percentiles, throughput and confidence: the comparison of the two snapshots is a parameter of an analysis.
- Text of error messages, except where a stop is classified from it.
- Health, configuration, degraded mode, output filter, context cache, multi-GPU execution: easy next to the rest.
