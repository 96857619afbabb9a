# Metallix tooling: verified models

The repository serves models on Apple hardware; its Python tooling builds, checks, measures and encodes
around that server. This project models the parts of the tooling that carry state, protocols or arithmetic,
one module per source component, and proves what each is for.

- **LaneProtocol** is the isolated check lane as a step relation: any number of controllers, gates and commands
  share one lane, any of them may die at any step, and the lease, the `incomplete` marker and the completion
  receipt are the only things that outlive a process.
- **LaneSource** is the same lane's source projection as a class over a directory tree, a manifest and a marker,
  mutated one file operation at a time; a stop is possible before every operation and between truncating a file
  and filling it.
- **ProcessGroup** runs the anchored cleanup against an operating system with arbitrary answers, timing and
  failures. Each call to that system writes what it did or showed to a record; the looks before the first signal
  decide the outcome exactly, and from then on the log follows a protocol automaton, whose safety properties are
  theorems about every such log. **Footprint** is the memory sampler beside it.
- **RustMask**, with the grammar of its tokens in **RustTokens**, and **TokenGroups** are the comment masker and
  bracket matcher; **EventStream** is the incremental server-sent-event reader and event recorder; **TraceSpans** is
  the per-thread span matcher.
- **RequestEncoding** and **Collation** are the token budget and padding arithmetic of the Julia request contract.
- **PairwiseSum**, **Percentile**, **TensorRanges**, **Schedule**, **RankedHead** and **LoadQueue** are the numeric
  and combinatorial kernels: the balanced reduction under abstract rounding, interpolated percentiles, the
  safetensors tiling check, the interval oracle, the minimal head of a ranking and the concurrent load driver.

`Sorting` (Python's stable `sorted`), `JsonValues`, `RealFacts` and `Wrappers` are shared.

Floats are reals, or reals under an arbitrary rounded addition where rounding matters. Tokenizers, JSON decoding,
`str` and file digests are arbitrary functions; clocks, exits, signals and observations are nondeterministic.
Code that loops over mutable state is a method or class proved against a specification function or
property, and the theorems are about that specification.

Some results say where the code does less, or more, than its text suggests:

- A sync of an honest capture into an untampered lane completes exactly when permission bits allow it: every entry
  readable, every old file of the same name readable, and writable too if its content changes (`SyncSource`,
  `NextSyncPermitted`). A read-only file whose content changes fails after the marker is written, so the lane stays
  blocked (`ReadOnlyChangeBlocks`).
- A completed sync stores any mode, but the next run validates modes up to 0o777 only: one set-user-ID, set-group-ID or
  sticky file and the lane refuses its own manifest from then on (`ExactIsAccepted`, `SetUserIdLocksOut`).
- The lane's marker may be removed although the gate's exit status is not the one in its receipt, exactly when a signal
  cancelled the controller and the gate was killed after recording 128 plus that signal (`MarkerRemoved`,
  `RemovalPairs`, `CancelledMismatch`). The repository's own gate records 0 or 1 only, so its cancelled runs always keep
  the marker (`CancelledRunKeepsMarker`).
- The sequence budget error is out of reach for every row with n options exactly when the entry check refuses the
  lengths, `head_length >= 8 + 4n` or `max_length >= 13 + 4n` (`BudgetIsEnough`). Otherwise short options and an
  eight-token head already exceed it. Strict calls never reach it (`StrictIsWithinBudget`).
- The rows of a collated batch all have the common length exactly when no carried encoding is longer than `max_length`
  (`RowsAreEqual`); they are equally long in one case more, when all encodings are (`RowsAgree`).
- A request whose end event names another id than its begin owns the spans inside it that carry the id its end names
  (`PhasesAreOwned`), so possibly a nested request's (`EndNamesNested`) and not its own.
- A load run with concurrency 0 sends nothing and still returns; otherwise, without an exception, every prompt is sent
  and recorded (`EndedRunIsComplete`). With exceptions, exactly the raising requests of the prompts taken lack a record
  (`EndedRunAccounts`).

## Model

| member | source | states |
|---|---|---|
| LaneProtocol.StepKeepsInv | scripts/check_workspace.py:182-330 | every step of every controller, gate, command or crash keeps the lease, marker, tree and receipt invariant |
| LaneProtocol.ReachableInv | scripts/check_workspace.py:182-330 | the invariant holds in every reachable state of any number of runs |
| LaneProtocol.LaneIsExclusive | scripts/check_workspace.py:259-274 | while any process of a run lives the lease is that run's and held, no other run can acquire it, and no process of another run lives |
| LaneProtocol.GateSeesItsCapture | scripts/check_workspace.py:281-311 | while a gate or command lives the source tree is exactly what its own run captured |
| LaneProtocol.AbandonedForever | scripts/check_workspace.py:276-279 | once the lane is abandoned no later step changes the tree, starts a gate or removes the marker |
| LaneProtocol.DeathAbandons | scripts/check_workspace.py:326-328 | a controller dying anywhere between writing and removing the marker abandons the lane for good |
| LaneProtocol.MarkerRemoved | scripts/check_workspace.py:312-328 | the marker goes only by its own run, after its gate ended, with a receipt equal to the supervised status; receipt and gate exit status are equal exactly unless a signal cancelled the run and the gate was killed after recording |
| LaneProtocol.CancelledMismatch | scripts/check_workspace.py:201-215 | for each of the three signals and any death by signal, a schedule that removes the marker with a receipt of 128 plus the signal |
| LaneProtocol.RemovalPairs | scripts/check_workspace.py:201-328 | a receipt and exit status can stand when the marker is removed exactly when they are one exit status, or the receipt is 129, 130 or 143 and the gate was killed |
| LaneProtocol.CancelledRunKeepsMarker | scripts/check.py:207-210 | with the results the gate's own checks return, 0 or 1, a cancelled run's marker is never removed |
| LaneProtocol.LaneIsReusable | scripts/check_workspace.py:261-330 | a free lane without a marker can be used to completion whatever earlier runs did and whatever exit status the gate returns |
| LaneSource.Lane.SyncSource | scripts/check_workspace.py:130-179 | on every outcome nothing changes before the marker exists and no file outside the old manifest and the new entries is touched; linked metadata, an invalid manifest, a source directory that is not private and an unknown path are each refused with nothing changed, and nothing else is; success leaves exactly the entries, stored as manifest; a ready lane left to finish completes exactly when permission bits allow it, else it stays blocked; an exact tree is left alone |
| LaneSource.Lane.RemoveStale | scripts/check_workspace.py:153-156 | only dropped owned files go, all of them on success |
| LaneSource.Lane.PruneDirectories | scripts/check_workspace.py:157-161 | deepest-first removal loses no file and leaves only directories above one |
| LaneSource.Lane.MakeParents | scripts/check_workspace.py:164 | parents are added, nothing else changes, and prefix-free entries never collide |
| LaneSource.Lane.WriteEntry | scripts/check_workspace.py:162-170 | one entry gets its bytes and mode, other files keep theirs, an up-to-date entry is not rewritten; with a copy in the snapshot it fails exactly for want of a permission bit |
| LaneSource.Lane.Verify | scripts/check_workspace.py:171-177 | the verification passes exactly when every entry has its mode and digest and can be read |
| LaneSource.NextSyncPermitted | scripts/check_workspace.py:162-177 | after a completed sync, what permission bits allow next is decided by the two captures alone |
| LaneSource.ReadOnlyChangeBlocks | scripts/check_workspace.py:165-170 | the failing input: a read-only file whose content changes between two captures |
| LaneSource.ExactIsUnique | scripts/check_workspace.py:162-177 | the projected tree is determined by the entries alone |
| LaneSource.ExactIsAccepted | scripts/check_workspace.py:101-151 | what a completed sync leaves passes the next ownership scan, and its manifest passes validation exactly when no mode exceeds 0o777 |
| LaneSource.SetUserIdLocksOut | scripts/check_workspace.py:112-126 | the failing input: one set-user-ID file, after which the lane's own manifest is refused |
| LaneSource.ValidNamesLeadDown | scripts/check_workspace.py:111-117 | a manifest name is valid exactly when it leads down from any directory one step a component, so never out of the source directory |
| ProcessGroup.System.Exited | scripts/owned_process_group.py:28-31 | looking at the child's exit never reaps it |
| ProcessGroup.System.ConfirmTerminal | scripts/owned_process_group.py:34-49 | the looks are all at a running child but the last, which decides; "no" comes only after the time has passed |
| ProcessGroup.System.Watch | scripts/owned_process_group.py:89-103 | the watch reports an empty group exactly when its last observation found no live member; otherwise the wait is over or the last observation failed |
| ProcessGroup.System.TakeInventories | scripts/owned_process_group.py:105-112 | it returns exactly after an inventory without members, zombies included, and gives up after two seconds or on a failing inventory |
| ProcessGroup.System.Cleanup | scripts/owned_process_group.py:52-112 | the group is signalled exactly when the looks at the child show it to be ours and it is not the watchdog's; each refusal exactly on its looks: another group, a group not found and no exit within the time, the watchdog's own group, a failing look; from SIGTERM on the log follows the protocol, SIGKILL not before the grace is over unless an observation failed; a normal return is a confirmed log and counts the telemetry errors |
| ProcessGroup.System.SignalAndReap | scripts/owned_process_group.py:81-112 | the two signals, the reap and the inventories follow the protocol; a timeout, an unconfirmed group and a failing inventory each at their stage |
| ProcessGroup.SignalsAreAnchored | scripts/owned_process_group.py:62-88 | every group signal met an unreaped child and its unrecycled pid; SIGTERM comes first and only first |
| ProcessGroup.ReapIsAfterSignals | scripts/owned_process_group.py:81-104 | the child is reaped at most once, after the last signal |
| ProcessGroup.KillIsOnce | scripts/owned_process_group.py:81-103 | after SIGKILL nothing more is signalled |
| ProcessGroup.KillSkippedOnlyWhenClear | scripts/owned_process_group.py:91-103 | a reap without SIGKILL follows an observation with no live member |
| ProcessGroup.ConfirmedIsEmpty | scripts/owned_process_group.py:104-112 | a confirmed cleanup signalled, reaped and ends with an empty inventory |
| Footprint.Watch.Sample | scripts/owned_process_group.py:128-160 | the first member in the way decides the outcome, failing inventories included; on every outcome old identities stay and new ones were measured, and a total has every measured member on record |
| Footprint.VerdictMeaning | scripts/owned_process_group.py:128-160 | a total exactly when the leader is listed and every member chargeable or skippable, and then the sum; None exactly when the exit is confirmed and the leader is unlisted or the first member in the way is a lookup error |
| Footprint.FirstFaultDecides | scripts/owned_process_group.py:128-160 | the first member that does not pass decides by the fault its reading stands for; a lookup error is forgiven exactly when the leader's exit is confirmed |
| Footprint.PassesMeans | scripts/owned_process_group.py:138-157 | every member that does not pass has such a fault, and the checks agree on which members pass |
| Footprint.Charged | scripts/owned_process_group.py:138-157 | the checks on one member, in order, decide whether it is counted, skipped or in the way |
| Footprint.OneProcessPerPid | scripts/owned_process_group.py:154-156 | across all totals on one record a pid stands for one process identity |
| RustMask.Masked | scripts/check_observability.py:74-119 | the in-place scanner computes the masking function |
| RustMask.ScanToken | scripts/check_observability.py:79-114 | the branches compute where the token at a position ends |
| RustMask.MaskShape | scripts/check_observability.py:115-119 | same length, every character kept or blanked as a token covers it, newlines exactly in place |
| RustMask.NothingLeft | scripts/check_observability.py:74-119 | no comment, string or character literal starts anywhere in a masked text |
| RustMask.MaskIdempotent | scripts/check_observability.py:74-119 | masking twice is masking once, for every text |
| RustMask.NoLoneBlank | scripts/check_observability.py:79-119 | a blanked character after a visible one is followed by another |
| RustMask.CommentIsOneToken | scripts/check_observability.py:84-93 | a block comment with any nesting and any other contents is one token up to the closing that matches it |
| RustMask.CommentTokens | scripts/check_observability.py:84-93 | conversely, a comment token that ends before the text does is a complete comment of the nested grammar |
| RustMask.StringIsOneToken | scripts/check_observability.py:101-107 | an escaped string is one token from quote to quote for any contents |
| RustMask.RawIsOneToken | scripts/check_observability.py:95-98 | a raw string with any prefix and number of hashes is one token for any contents short of its own end |
| RustTokens.LineCommentIsOneToken | scripts/check_observability.py:80-82 | a line comment is one token and ends at its line break or the end of the text |
| RustTokens.LiteralIsOneToken | scripts/check_observability.py:99-108 | a string of plain characters and escapes of any character ends at its closing quote |
| RustTokens.StringTokens | scripts/check_observability.py:99-108 | a string token ends before the last character of the text exactly where such a string does |
| RustTokens.RawOpenings | scripts/check_observability.py:95 | a raw string opens exactly at `br`, `cr` or `r`, any number of hashes and a quote |
| RustTokens.RawTokens | scripts/check_observability.py:95-98 | a raw string token ends inside the text exactly after the first quote with as many hashes |
| RustTokens.CharTokens | scripts/check_observability.py:109-112 | a character literal is exactly one of the four forms, with its length |
| RustTokens.CodeIsTheRest | scripts/check_observability.py:79-114 | a position is code exactly when no comment, raw string, string or character literal is written there |
| RustMask.SameLine | scripts/check_observability.py:200 | an offset in the masked text has the line number it has in the source |
| TokenGroups.Closing | scripts/check_observability.py:122-135 | the stack loop computes the matching function |
| TokenGroups.ClosingFindsGroup | scripts/check_observability.py:122-135 | an end below the length is returned exactly when the tokens up to it form a complete group of the bracket grammar |
| TokenGroups.ClosingReportsNoGroup | scripts/check_observability.py:122-135 | the length is returned exactly when no group starts there |
| TokenGroups.GroupIsUnique | scripts/check_observability.py:122-135 | at most one group starts at a token |
| TokenGroups.PlainGroup | scripts/check_observability.py:122-135 | a group of each of the three kinds of brackets around any other tokens ends at its closing bracket |
| EventStream.SplitAppend | scripts/e2e_agents.py:109 | splitting a text in two pieces, the first tail prefixed to the second, gives the events and tail of the whole |
| EventStream.ChunkingIrrelevant | scripts/e2e_agents.py:106-116 | any chunking yields the payloads and tail of one call on the whole text |
| EventStream.WireRoundTrip | scripts/e2e_agents.py:106-116 | a stream of events of data lines mixed with any other lines, each line and blank line with either line end, is read back: per event its data texts stripped and joined in order, nothing for an event without one, nothing of other lines, no tail |
| EventStream.DelimiterIs | scripts/e2e_agents.py:109 | events are separated by exactly the four ways to write two line ends |
| EventStream.JoinedTextsRead | scripts/e2e_agents.py:114-115 | the data texts of an event can be read back from its payload |
| EventStream.LinesBreakAt | scripts/e2e_agents.py:112 | which characters end a line of an event, by code point |
| EventStream.SpaceIsStripped | scripts/e2e_agents.py:112 | which characters are stripped from the start of a data text, by code point |
| EventStream.Exchange.CheckEvent | scripts/e2e_agents.py:119-161 | the mutating branches compute the event function, with its whole effect: terminal flag, errors and their texts, tool calls in order, and whether an error escapes |
| EventStream.Exchange.RecordObject | scripts/e2e_agents.py:132-161 | the branches by protocol change exactly the fields of the event function |
| EventStream.Exchange.RecordChoices | scripts/e2e_agents.py:157-161 | the nested loops over choices and calls append the named calls in order until an escaping error |
| EventStream.CheckEffect | scripts/e2e_agents.py:119-161 | the terminal flag is set exactly by the protocol's end events; the errors appended, their texts and the tool calls named are given exactly, and an escaping error exactly where the reading raises |
| EventStream.Exchange.RecordPayloads | scripts/e2e_agents.py:290-294 | payloads are recorded in order until an escaping error |
| EventStream.Exchange.Forward | scripts/e2e_agents.py:280-296 | however the body is cut, the record is that of the whole text, and the buffer its tail unless an error escaped |
| EventStream.StreamMeaning | scripts/e2e_agents.py:280-296 | without an escaping error every payload is counted, errors and tool calls are those of the payloads in order, and the stream is terminal exactly when some payload ends it |
| EventStream.StreamRaises | scripts/e2e_agents.py:290-294 | an error escapes exactly when the reading of some payload raises |
| TraceSpans.Intervals | scripts/mx_spans.py:58-103 | the loop over the dictionary of stacks computes the matcher |
| TraceSpans.FieldsAreRecorded | scripts/mx_spans.py:48-93 | a field recorded as JSON text or as itself gives the same span field and request id, the end's fields over the begin's |
| TraceSpans.ThreadsAreIndependent | scripts/mx_spans.py:61-83 | the spans of a thread are those of its own events alone |
| TraceSpans.SpansAreLaminar | scripts/mx_spans.py:58-107 | a thread's spans pair a begin with a later end of its name, use each event once, and are pairwise nested or disjoint, in time too under a monotone clock |
| TraceSpans.NestedStreamsMatchExactly | scripts/mx_spans.py:62-103 | a properly nested thread yields every pair exactly once, inner first |
| TraceSpans.RequestIdIsNearest | scripts/mx_spans.py:66-80 | a span's id is that of the innermost event open at its begin, itself included, that brings one |
| TraceSpans.PhasesAreNested | scripts/mx_spans.py:153-158 | on any thread whose clock strictly advances the filter selects exactly the spans that carry the id and begin and end inside the request |
| TraceSpans.PhasesAreOwned | scripts/mx_spans.py:153-158 | over a whole trace, for a request on a properly nested thread and any id: on its own thread exactly the spans inside it that carry the id, however many begins bring it; on other threads exactly those that carry it within its time |
| TraceSpans.PhasesWithTies | scripts/mx_spans.py:153-158 | the same on one thread when timestamps may be equal, for an id brought once; the merged fields name that id unless the end names another |
| TraceSpans.EndNamesNested | scripts/mx_spans.py:122-158 | the input on which a request's end names another id and the filter selects a nested request that brings it |
| TraceSpans.LongestEntries | scripts/mx_spans.py:120-131 | every request with an entry is kept, under its first longest entry |
| RequestEncoding.LayOut | scripts/julia_encoding_contract.py:163-167 | the loop appends every block and notes where each starts |
| RequestEncoding.Encode | scripts/julia_encoding_contract.py:116-185 | the checks and the loop, in source order, compute the encoding function |
| RequestEncoding.SequenceShape | scripts/julia_encoding_contract.py:125-185 | every success: all ids accounted for, at most `max_length` and exactly that when truncated; each option with 48 tokens or all of it, or one common cap that is 4 or the largest that fits the head length; of the question what the options leave, at least eight; strictly increasing markers, each at a mask followed by a prefix of its option |
| RequestEncoding.StrictIsLossless | scripts/julia_encoding_contract.py:140-185 | a decoder recovers question, option and state tokens of the caller's own texts; the ordinary call agrees, untruncated |
| RequestEncoding.StrictAccepts | scripts/julia_encoding_contract.py:125-178 | a strict call succeeds exactly for rows whose token counts fit, in arithmetic on the counts |
| RequestEncoding.CleanReplaces | scripts/julia_encoding_contract.py:143 | every mask token of a text, from the left, becomes one space and nothing else changes |
| RequestEncoding.CleanSpreads | scripts/julia_encoding_contract.py:143 | an empty mask token puts a space around every character |
| RequestEncoding.BudgetIsEnough | scripts/julia_encoding_contract.py:125-174 | for given lengths the sequence budget error is out of reach for all rows of n options exactly when the entry check refuses, `head_length >= 8 + 4n` or `max_length >= 13 + 4n` |
| RequestEncoding.BudgetForAnyLength | scripts/julia_encoding_contract.py:146-174 | over all sequence lengths, exactly when `head_length >= 8 + 4n` |
| RequestEncoding.StrictIsWithinBudget | scripts/julia_encoding_contract.py:151-174 | a strict call never reaches that error |
| Collation.FillRows | scripts/julia_encoding_contract.py:208-219 | the loop that overwrites the padded lists row by row builds the batch |
| Collation.FillTeacher | scripts/julia_encoding_contract.py:214-221 | the teacher rows are spliced in at the markers, or a null value stops the call |
| Collation.Collate | scripts/julia_encoding_contract.py:188-232 | empty input, the first failing row and a null teacher are errors, otherwise the batch with its labels and teacher rows |
| Collation.RowsAreEqual | scripts/julia_encoding_contract.py:206-215 | every row has the common length exactly when no encoding exceeds `max_length` |
| Collation.RowsAgree | scripts/julia_encoding_contract.py:206-215 | the rows are equally long exactly when every encoding fits or all encodings are equally long |
| Collation.TeacherRowIsRight | scripts/julia_encoding_contract.py:220-221 | a teacher row has the common width exactly with one logit per marker, and the marker mask picks the logits out |
| Collation.CollationIsFaithful | scripts/julia_encoding_contract.py:188-232 | one length, the least multiple of 8 that fits or `max_length`; attention 1 on exactly the encoding's ids and 0 on the padding, which holds the pad id, 0 and false; stripping recovers ids and markers; unmasked markers hold the mask id; labels and teacher logits appear exactly when asked for and complete |
| PairwiseSum.ReduceLevel | scripts/julia_calibration_norm_tree.py:172-174 | one pass adds neighbours and carries an odd last value over |
| PairwiseSum.Pairwise | scripts/julia_calibration_norm_tree.py:165-175 | the loop computes the balanced sum in exactly `Halvings(n)` passes, or rejects the empty vector |
| PairwiseSum.Accumulate | scripts/julia_calibration_norm_tree.py:183-185 | the serial loop computes the left-to-right rounded sum |
| PairwiseSum.HalvingsIsLog | scripts/julia_calibration_norm_tree.py:171-174 | the number of passes is the rounded-up binary logarithm of the length |
| PairwiseSum.BalancedSplits | scripts/julia_calibration_norm_tree.py:165-175 | the sum is one rounded addition of two balanced sums, the first over the largest power of two of the values that leaves some |
| PairwiseSum.BalancedBound | scripts/julia_calibration_norm_tree.py:165-175 | error at most ((1+u)^ceil(log2 n) - 1) times the sum of absolute values |
| PairwiseSum.SerialBound | scripts/julia_calibration_norm_tree.py:183-185 | error at most ((1+u)^n - 1) times the sum of absolute values |
| PairwiseSum.ExactAgree | scripts/julia_calibration_norm_tree.py:165-185 | without rounding both sums are the exact sum |
| PairwiseSum.BoundsAreTight | scripts/julia_calibration_norm_tree.py:165-185 | for every n and u some data and rounding meet both bounds with equality |
| Percentile.PercentileMonotone | scripts/bench_load.py:637-645 | a higher q never gives a lower percentile |
| Percentile.PercentileWithinSample | scripts/bench_load.py:637-645 | every percentile lies between two members of the sample |
| Percentile.PercentileIgnoresOrder | scripts/bench_load.py:641 | permuting the sample changes nothing |
| Percentile.PercentileMonotoneInSample | scripts/bench_load.py:637-645 | raising any of the samples never lowers a percentile |
| Percentile.PercentileMedian | scripts/bench_load.py:637-645 | q = 50 is the ordinary median |
| Percentile.PercentileOnSegment | scripts/bench_load.py:637-645 | between neighbouring ranks the percentile is the point of the straight line through their samples, for every q |
| Percentile.PercentileOfOne | scripts/bench_load.py:637-645 | the percentile of one sample is the sample |
| Percentile.DistributionOrdered | scripts/bench_load.py:648-653 | p50 <= p90 <= p99 <= max for every nonempty sample |
| TensorRanges.ProductOf | scripts/inspect-julia.py:101-107 | the loop multiplies valid dimensions and rejects others |
| TensorRanges.ProductCounts | scripts/inspect-julia.py:101-107 | the product is the number of index vectors of the shape |
| TensorRanges.ReadTensors | scripts/inspect-julia.py:139-182 | the member loop collects ranges and tensors or stops at the first fault |
| TensorRanges.CheckMeans | scripts/inspect-julia.py:147-178 | the checks return a tensor exactly when the member spells it out: its name, its three fields, four bytes for each index vector, inside the payload |
| TensorRanges.SweepRanges | scripts/inspect-julia.py:183-191 | the cursor loop reports the first hole, overlap or trailing bytes |
| TensorRanges.ParseHeader | scripts/inspect-julia.py:110-192 | accepted exactly when the size checks pass, at most 104857600 header bytes among them, and the header's members inspect clean |
| TensorRanges.InspectAccepts | scripts/inspect-julia.py:139-192 | accepted exactly when keys are distinct, metadata maps strings to strings and the other members describe tensors, at least one, that put every payload byte in exactly one range and empty tensors on boundaries |
| TensorRanges.InspectGives | scripts/inspect-julia.py:177-192 | the result holds exactly the described tensors, each under its own name |
| TensorRanges.PayloadIsElements | scripts/inspect-julia.py:168-191 | an accepted payload is four bytes for each number of the parsed tensors |
| TensorRanges.InspectIgnoresOrder | scripts/inspect-julia.py:139-192 | acceptance and result do not depend on key order |
| Schedule.PairwiseIsSweep | scripts/evaluate-candidates.py:295-299 | the pairwise overlap oracle agrees with checking neighbours after sorting by start |
| Schedule.PairwiseIgnoresOrder | scripts/evaluate-candidates.py:280-299 | the oracle is invariant under permutation |
| Schedule.AdherentMeaning | scripts/evaluate-candidates.py:302-316 | adherent exactly when 1 to 128 proper intervals, as many as asked, lie apart in the window and their lengths are the durations as a bag |
| Schedule.AdherentIgnoresOrder | scripts/evaluate-candidates.py:302-316 | the order of intervals and of durations is irrelevant |
| Schedule.AdherentFits | scripts/evaluate-candidates.py:302-316 | an accepted schedule's total task duration fits the window |
| Schedule.Satisfiable | scripts/evaluate-candidates.py:302-316 | a task has an accepted schedule exactly when its positive durations, counted, fit its window |
| RankedHead.Cover | scripts/hub_trending.py:551-555 | the accumulation loop computes the coverage prefix |
| RankedHead.SelectHead | scripts/hub_trending.py:532-569 | the head each rule selects and its recorded size and weights |
| RankedHead.ScoreHeadIsExact | scripts/hub_trending.py:547-560 | the score rule keeps exactly the models whose score reaches it, with their multiplicity, best first; without a rule all are kept |
| RankedHead.CoverageIsMinimal | scripts/hub_trending.py:551-555 | no collection of models of any shape reaching the share is smaller than the head |
| RankedHead.CoverageReaches | scripts/hub_trending.py:551-555 | for non-negative scores and shares up to 1 the head reaches the share |
| RankedHead.ReloadGivesHead | scripts/hub_trending.py:863-873 | re-sorting the listing and taking the recorded size gives the head back, as a multiset when it is the whole listing |
| LoadQueue.StepKeepsInv | scripts/bench_load.py:588-624 | every worker step keeps the lock discipline and the account of every prompt |
| LoadQueue.NeverTwice | scripts/bench_load.py:588-611 | in every interleaving no prompt is sent or recorded twice and at most `concurrency` requests are in flight |
| LoadQueue.SchedulesEnd | scripts/bench_load.py:588-628 | every schedule has at most 10n + 5c steps and can always go on until every worker has ended |
| LoadQueue.EndedRunIsComplete | scripts/bench_load.py:588-630 | without an exception each prompt taken was sent once and the sorted records have indices 0, 1, ...; all prompts were taken exactly when there was a worker or no prompt |
| LoadQueue.EndedRunAccounts | scripts/bench_load.py:588-630 | with exceptions too: each prompt taken was sent once, the sorted records are exactly those whose request did not raise, and all prompts were taken if any worker returned |

## Left out

- Sockets, HTTP, subprocess launching, argument parsing, reports, JSON writing and request receipts: plumbing.
- Capturing the source (`git` listing, snapshot copy), directory permissions, queue timeouts and the final check for changed sources: inputs or plain stops in the lane models.
- LaneProtocol: explicit recovery of an abandoned lane by a person, and a timeout of `supervise`, which `run_isolated` never passes. The gate is any program that writes its result at most once and then exits with its low eight bits or is killed; an interpreter that fails while shutting down is left out.
- LaneSource.Lane.SyncSource: file contents stand for their digests (SHA-256 taken as injective); the files are the lane user's own and `chmod` sets exactly the mode asked for; permissions of directories and failing devices are left out.
- ProcessGroup: assumes nobody else in the watchdog reaps the child, and that the grace period of the code is a parameter; telemetry payloads are left out.
- Footprint.Watch.Sample: each member's reading, second look included, is given up front; the native sampler is left out.
- RustMask: the two regular expressions are spelled out by hand; the tokenization that feeds the bracket matcher and the rules in `violations` are left out.
- EventStream.Exchange.Forward: incremental UTF-8 decoding, the clock fields, writing to the client and unstreamed bodies are left out.
- TraceSpans: events without a name or timestamp, for which the code raises; the proxy's queue waits and the report rows. Request ids are compared as decoded values; that Python takes 1, 1.0 and true for equal is left out.
- TraceSpans.PhasesWithTies: with equal timestamps, stated for one thread and an id that only the request's begin brings there; without ties no such restriction is made.
- RequestEncoding: malformed tokenizer output and the row checks that do not bound the options; the JSON dump of a structured state is an input.
- PairwiseSum.BalancedBound: overflow, NaN and the other passes of the normalization; rounding is any addition with relative error at most u.
- Percentile: q outside [0, 100], which the callers never pass.
- LoadQueue: Poisson arrivals, whose threads share nothing but the record list; thread launch failures.
- Reference captures through Torch, MLX or transformers, hub classification, receipt schemas, statistics and the Rust engine are not part of this model.
