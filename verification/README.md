# Tagteam: verified models of its algorithms and state machines

Tagteam runs agent command-line tools: it starts them, redacts and bounds their output, journals what it
asked them, checks what they changed, and lets an operator approve, resume and cancel runs. Most of the
repository is process plumbing. This project models the parts that are small algorithms or state machines
with invariants that have to hold over every input, every run and every interleaving, and proves them.

Code that changes state step by step is modelled as methods over the same fields and loops, proved against
functions of the inputs or of the old state; the properties are then proved about those functions. Concurrent
code is a step system: one step per critical section, and theorems over every interleaving.

| File | What it models |
|---|---|
| `Redaction.dfy`, `InvocationStream.dfy` | redaction of a chunked stream, against redaction of the whole text |
| `Secrecy.dfy` | which secrets redaction removes, from a whole text and from a chunked one |
| `Diff.dfy` | the line diff: table, walk, printed form, and reading the printed form back |
| `Replay.dfy`, `Journal.dfy` | the write-ahead operation journal: its histories with crashes, and its files |
| `GitPreflight.dfy` | the two Git preflights, as sequences of commands over a commit graph, any of which may fail |
| `Lifecycle.dfy` | starting, watching and closing jobs, interleaved |
| `Approvals.dfy`, `ApprovalReuse.dfy`, `ApprovalAnswers.dfy`, `ControlLedger.dfy` | the approval ledger shared by start, resume and cancel |
| `PanelBudget.dfy` | the panel budget ledger |
| `EmbeddedJson.dfy`, `JsonSearch.dfy` | finding JSON objects in an agent's prose |
| `Scope.dfy`, `ScopeMeaning.dfy` | normalising and intersecting write scopes |
| `AcpCalls.dfy`, `AcpAnswers.dfy` | the pending-call table of the ACP client, interleaved |
| `Findings.dfy` | reconciling the findings ledger |
| `ManagedBlock.dfy` | the managed block in a text configuration file |
| `Text.dfy`, `Ordering.dfy`, `Sums.dfy`, `Durable.dfy`, `Options.dfy` | shared vocabulary |

## What the proofs show about the code

Some promises hold only under a condition. Each is proved with the exact condition, or with a concrete input
that fails and a condition that suffices.

- **Redaction** removes a secret from every text, whatever the other secrets are and however they overlap,
  exactly if the secret fits nowhere over the marker. One that begins inside the marker can come back by itself;
  one that begins before it can come back where the replacing of another secret puts the marker.
- **Streamed redaction** persists no secret that fits nowhere over the marker, whatever the other secrets are,
  when no two occurrences cross with enough text behind the left one. No text has such a crossing exactly if no
  secret overlaps the end of itself or of one before it. For one secret that condition is exact: it is persisted
  whole by no writes of any text exactly if its start does not overlap its end. `"aa"` does, and the two writes
  `"aaa"` and `"a"` persist `"aa"` and the marker. With several secrets one write can be enough: with `"abcd"`,
  `"efgh"` and `"cdef"`, writing `"abcdefgh"` persists `"abcd"` and the marker.
- **Streamed redaction equals whole-text redaction** for every chunking under the same condition, when no later
  secret overlaps an edge of the marker. For one secret and one text the first condition is exact: if it fails,
  some chunking streams a different text. Texts whose occurrences are nested or disjoint meet it. `"aa"` in
  `"aaa"`, and the secrets `"ab"`, `"]x"` in `"abx"`, show that neither condition can be dropped.
- **The journal's fence** is the sequence number of the record and never changes, so it tells operations
  apart but never refuses an older holder of the same operation. A commit without a result makes the stream
  unreadable, and nothing else does.
- **Panel work** reserved can go negative exactly when it is below reserved concurrency. An unstarted member can
  be refused its start exactly when, besides, there is one. Admitting every panel with a unit of work a member
  prevents both.
- **A panel's fence** never changes either: it tells panels apart, not the holders of one.
- **A merge of the upstream** that stops without conflicts stays pending on the candidate branch, because only
  conflicts are aborted, and the switch back is then refused. Conflicts are taken back unless a command fails of itself.
- **An approval** can be consumed twice only by a request that is validated before the approval expires and
  reads the ledger after. In every ledger, a repeated start gets the first one's run exactly if its approval
  is unexpired at the pruning, and consumes it again exactly if it is not and nothing else stands in the way;
  a run from the empty ledger does so. With one clock reading for both, no run does.
- **Closing the runtime** cancels every worker it waits for unless a job is registered under the identifier of
  a registered one and the two are not both cancelled. That condition is exact: after such a registration
  some continuation has `Close` waiting for a worker that nobody has cancelled. A sixteen-step run from the
  empty runtime does, when the first worker unregisters after the second one of its run has registered.
- **Operator scope** bounds a round exactly when normalising it a second time leaves every entry covered.
  It can fail: cleaning `"./ a"` uncovers a leading space, and the second normalisation drops it. The same
  condition, no uncovered white space, is exact for normalisation being idempotent.
- **A pending call** that enters the table after `rejectPending` is never answered: the `closed` flag
  is set and never read. A caller that registered while the flag was still clear gets its response or the
  rejection, unless its write fails or it is cancelled first.
- **An object in prose** without quotes, closing braces or fences is hidden by more than 63 unmatched opening
  braces, and by no fewer.

## Conventions

A Go string is a sequence of bytes; the model has one `char` per byte. Go's 64-bit counters are unbounded
integers here, except that journal sequence numbers stay below 2^64, where the file names still sort. Locks
make the sections they guard atomic. A file is replaced atomically; the write can fail before the rename or
after it (`Durable.dfy`). SHA-256 digests are functions about which nothing else is known. Time, the
outcome of every command and write, and which runs have finished are inputs.

## Model

| member | source | states |
|---|---|---|
| `Secrecy.SecretIsRemoved` | internal/tagteam/invocation_stream.go:107-112 | a secret that fits nowhere over the marker occurs nowhere in the redaction of any text, in whatever order the secrets are replaced |
| `Secrecy.BeginsInMarkerComesBack` | internal/tagteam/invocation_stream.go:107-112 | a secret that begins inside the marker is left in the redaction of some text |
| `Secrecy.EndsInMarkerComesBack` | internal/tagteam/invocation_stream.go:107-112 | a secret that begins before the marker and fits over it is left in the redaction of some text by that secret and another |
| `Secrecy.RemovedExactly` | internal/tagteam/invocation_stream.go:107-112 | a secret is removed from every text by every list of secrets it is in, if and only if it fits nowhere over the marker |
| `Secrecy.NeverAppears` | internal/tagteam/invocation_stream.go:107-112 | redaction never makes such a string appear in a text that does not have it |
| `Redaction.StreamRefinesWhole` | internal/tagteam/invocation_stream.go:63-158 | every way of splitting a text without crossing occurrences into writes, then close, emits exactly the redaction of the whole text |
| `Redaction.SingleSecretExact` | internal/tagteam/invocation_stream.go:85-112 | with one secret, all chunkings agree with the whole-text form if and only if no two occurrences overlap with room behind the left one |
| `Redaction.LaminarHasNoHazard` | internal/tagteam/invocation_stream.go:85-105 | occurrences that are pairwise nested or disjoint meet the condition |
| `Redaction.HazardBreaks` | internal/tagteam/invocation_stream.go:90-103 | for one secret and a text with the hazard, builds writes whose output differs from the whole-text redaction |
| `Redaction.RedactSplits` | internal/tagteam/invocation_stream.go:107-112 | redaction distributes over a cut that splits no occurrence, through every replacement in turn, although markers appear on the way |
| `Redaction.SafeCutClean` | internal/tagteam/invocation_stream.go:85-105 | without the hazard, the chosen cut splits no occurrence of any secret, although passed occurrences are never looked at again |
| `Redaction.FeedKeepsConsumed` | internal/tagteam/invocation_stream.go:63-83 | each write keeps: what was emitted is the redaction of the text up to a clean cut, and what is pending is the rest |
| `Redaction.CutHoldsBack` | internal/tagteam/invocation_stream.go:71-81 | what a write keeps back is shorter than the longest secret or begins with a secret, and never more than one secret's length for each secret and one more |
| `Secrecy.StreamKeepsSecrets` | internal/tagteam/invocation_stream.go:63-158 | no chunking of a text without the hazard streams a secret that fits nowhere over the marker, whatever the other secrets are |
| `Secrecy.GuardKept` | internal/tagteam/invocation_stream.go:76-81 | emitting up to a cut inside no occurrence keeps: the secret is not in the output, and a start of it that ends the output ends the raw text |
| `Secrecy.NeverHazardExactly` | internal/tagteam/invocation_stream.go:85-105 | no text at all has the hazard if and only if no secret overlaps the end of itself or of one searched before it |
| `Secrecy.NeverStreamedExactly` | internal/tagteam/invocation_stream.go:63-158 | one such secret is streamed by no chunking of any text if and only if it does not overlap itself |
| `Secrecy.BorderEscapes` | internal/tagteam/invocation_stream.go:85-105 | for every secret that overlaps itself, builds writes that stream it whole |
| `InvocationStreams.SafeRedactionCut` | internal/tagteam/invocation_stream.go:85-105 | the nested search loops compute the recursive cut |
| `InvocationStreams.RedactKnownSecrets` | internal/tagteam/invocation_stream.go:107-112 | replaces each secret in turn |
| `InvocationStreams.InvocationStream.Write` | internal/tagteam/invocation_stream.go:63-83 | takes all of the input and keeps output, pending text and counters equal to the functional stream; holds back only text that is shorter than the longest secret or begins with a secret; refuses after close |
| `InvocationStreams.InvocationStream.Persist` | internal/tagteam/invocation_stream.go:114-131 | output is always the first `limit` characters emitted, and `exceeded` says whether any were dropped |
| `InvocationStreams.InvocationStream.Close` | internal/tagteam/invocation_stream.go:142-158 | flushes the held-back text once; the output is then the bounded stream |
| `InvocationStreams.InvocationStream.Exceeded` | internal/tagteam/invocation_stream.go:168-172 | says whether emitted or received text went over the limit |
| `InvocationStreams.Record` | internal/tagteam/invocation_stream.go:63-158 | a stream's whole life persists, without the hazard, no secret that fits nowhere over the marker, and exactly the first `limit` characters of the redacted input when besides no later secret overlaps an edge of the marker |
| `InvocationStreams.SelfOverlapIsSplit` | internal/tagteam/invocation_stream.go:96-101 | an input on which streamed and whole-text redaction differ because a secret overlaps itself |
| `InvocationStreams.SelfOverlapEscapes` | internal/tagteam/invocation_stream.go:63-112 | one secret and two writes after which it is persisted whole |
| `InvocationStreams.WholeSecretEscapes` | internal/tagteam/invocation_stream.go:85-105 | three overlapping secrets and one write after which one of them is persisted whole |
| `InvocationStreams.MarkerOverlapIsMissed` | internal/tagteam/invocation_stream.go:107-112 | an input on which they differ because a secret overlaps the marker |
| `Diff.LcsTable` | internal/cli/integrate.go:76-92 | every cell of the bottom-up table is the true longest-common-subsequence length of the two suffixes |
| `Diff.LcsBoundsAll` | internal/cli/integrate.go:76-92 | that length is at least the length of any common subsequence |
| `Diff.KeptIsCommon` | internal/cli/integrate.go:93-105 | the unchanged lines of any script are a common subsequence of both sides |
| `Diff.Walk` | internal/cli/integrate.go:93-105 | the walk through the table prints the recursive script |
| `Diff.ScriptIsFaithful` | internal/cli/integrate.go:93-105 | that script turns the first text into the second and keeps as many lines as their longest common subsequence has |
| `Diff.NoShorterScript` | internal/cli/integrate.go:93-105 | no other script between the same two texts is shorter |
| `Diff.InsertsComeFirst` | internal/cli/integrate.go:93-105 | no inserted line is printed directly behind a deleted one |
| `Diff.CommonStartIsKept` | internal/cli/integrate.go:93-105 | lines that both texts start with are kept |
| `Diff.SplitLosesNothing` | internal/cli/integrate.go:112-119 | splitting loses only the final newline, and no line contains one |
| `Diff.LineCount` | internal/cli/integrate.go:112-119 | empty text and a lone newline have no line; any other text has one for each newline and one for what follows the last |
| `Diff.UnifiedDiff` | internal/cli/integrate.go:70-110 | computes the output text: the no-change notice, or the header, the script, and a trailer exactly when one side lacks the final newline |
| `Diff.AgainstNothing` | internal/cli/integrate.go:70-119 | against empty text or a lone newline, the diff shows exactly the lines of the other text, each marked as inserted, or each as deleted |
| `Diff.NoteExactly` | internal/cli/integrate.go:106-109 | the last line of a diff is the newline note if and only if exactly one input ends in a newline |
| `Diff.ReadUndoesRender` | internal/cli/integrate.go:93-105 | a printed script reads back line by line as itself |
| `Diff.DiffReadsBack` | internal/cli/integrate.go:70-119 | both inputs can be rebuilt from the whole output, header and trailer included, up to their final newlines; equal inputs are told by the notice |
| `Diff.DiffTextDetermines` | internal/cli/integrate.go:70-110 | two pairs of inputs have the same whole output if and only if both are unchanged, or both have the same lines and the same answer to whether exactly one side lacks the final newline |
| `Diff.NothingHidden` | internal/cli/integrate.go:70-110 | unequal inputs with the same final newline always show an inserted or deleted line |
| `Journal.NamesAscend` | internal/tagteam/replay_contract.go:285-287 | zero-padded file names sort as text in numeric order, up to 2^64 |
| `Journal.NameIsDecimal` | internal/tagteam/replay_contract.go:285-287 | a file name is the sequence number in twenty decimal digits and the suffix of a record |
| `Journal.ListingIsSorted` | internal/tagteam/replay_contract.go:226-243 | the sorted directory listing is the sequence order |
| `Journal.RunDirectory.ReadOperation` | internal/tagteam/replay_contract.go:245-274 | succeeds exactly on a readable record whose stored digest matches |
| `Journal.ReadExactly` | internal/tagteam/replay_contract.go:245-274 | a file reads as a record if and only if the digest is the record's own, the schema is current, it has a number and a request hash, and a result under its own hash where it is committed |
| `Journal.HoldsExactly` | internal/tagteam/replay_contract.go:226-306 | a directory holds a stream if and only if its record files are the numbered ones and each reads back with its number, run and revision |
| `Journal.RunDirectory.ValidateOperationStream` | internal/tagteam/replay_contract.go:289-306 | accepts exactly the directories that hold a stream numbered 1 to n, and returns its last record |
| `Journal.RunDirectory.PrepareOperation` | internal/tagteam/replay_contract.go:308-366 | on a directory holding a stream, does to it exactly what the history step does, and writes the divergence file exactly on a mismatch; refuses any other directory and leaves it alone |
| `Journal.RunDirectory.RetryTail` | internal/tagteam/replay_contract.go:330-353 | rewrites the unresolved tail in place, through doubt when it was in flight |
| `Journal.RunDirectory.TransitionOperation` | internal/tagteam/replay_contract.go:376-406 | states the files and the reply for any directory; on a held stream does exactly what the history step does |
| `Journal.TransitionRefines` | internal/tagteam/replay_contract.go:376-406 | the transition of the files refines the history step, as far as the records stay readable |
| `Journal.FileTransitionExactly` | internal/tagteam/replay_contract.go:376-421 | on any readable file: accepted if and only if the fence fits and the pair of states is one of eight; then only that file changes, to the moved record under its own digest |
| `Journal.RunDirectory.ReconcileOperation` | internal/tagteam/replay_contract.go:423-441 | resolves only an operation in doubt, only with a real result, by that transition; every other answer changes nothing |
| `Journal.HoldsOne` | internal/tagteam/replay_contract.go:226-306 | a directory holds at most one stream |
| `Replay.EveryHistoryIsWellFormed` | internal/tagteam/replay_contract.go:245-419 | in every run with crashes and failed writes: numbered 1 to n, only the last unresolved, all readable, dispatched twice implies the risk mark, committed implies dispatched |
| `Replay.LaterExtendsEarlier` | internal/tagteam/replay_contract.go:330-419 | between any two moments of a run, resolved records are unchanged, requests and fences are kept, risk marks are never taken back |
| `Replay.CommittedTailIsReplayed` | internal/tagteam/replay_contract.go:355-359 | asking again for the committed tail returns its result and leaves the journal alone |
| `Replay.OnlyTheExactRequestContinues` | internal/tagteam/replay_contract.go:326-353 | an unresolved tail is taken further by exactly its own request, with the next attempt number; any other is refused without a change |
| `Replay.ReadableAfterTransition` | internal/tagteam/replay_contract.go:245-274 | an accepted transition leaves a readable record if and only if it is not a commit without any result |
| `Replay.TransitionExactly` | internal/tagteam/replay_contract.go:376-421 | in every well-formed history: a transition is accepted if and only if the record exists, the fence fits and the pair of states is one of eight; the record then has that state, result and recovery text, and the caller is told so if and only if the write is durable |
| `Replay.PrepareExactly` | internal/tagteam/replay_contract.go:308-366 | in every well-formed history: when a request is dispatched as a new record, as the retried tail, replayed, or refused, and every field of the record dispatched |
| `Replay.FailedPrepare` | internal/tagteam/replay_contract.go:326-365 | with failing writes the caller is told so, and the stream is as before, as after both writes, or has its in-flight tail in doubt |
| `Replay.DivergenceExactly` | internal/tagteam/replay_contract.go:326-374 | the divergence file is written if and only if a request is refused for the unresolved one, and names both |
| `Replay.CommittedRun` | internal/tagteam/replay_contract.go:308-421 | for every request and result, a run from the empty journal that commits the result, after which the request is answered with it |
| `Replay.FenceNeverMoves` | internal/tagteam/replay_contract.go:376-388 | the fence of a record is its sequence number in every later history |
| `GitPreflight.Repository.PrepareIntegratedRun` | internal/tagteam/git_sync_preflight.go:65-112 | whichever command fails: the source branch is where it was or ahead, other branches are untouched, the user's work and the checkpoint are kept; success integrates old tip, checkpoint and upstream, fetched before; the fast-forward is never refused. When no command fails of itself, exactly what decides the result: a branch that exists, unmerged paths, or how the merge ended; a conflict leaves the source branch checked out and clean |
| `GitPreflight.Repository.MergeTrackedUpstream` | internal/tagteam/git_sync_preflight.go:114-140 | moves only the candidate, forward; on success it has the tracked upstream, on failure nothing moved; a merge that can stop is only made where it is needed |
| `GitPreflight.Repository.AbortAndRestore` | internal/tagteam/git_sync_preflight.go:142-158 | when no command fails of itself: reports the merge failure, with the source branch checked out and no merge pending, unless the merge stopped without conflicts, which stays pending |
| `GitPreflight.Repository.ApplyCandidate` | internal/tagteam/git_sync_preflight.go:92-111 | source and run branch end at the candidate, which some branch reaches after any failure |
| `GitPreflight.Repository.PrepareSyncedRun` | internal/tagteam/git_sync_preflight.go:13-57 | whichever command fails: the source branch is where it was or at its upstream, others untouched, work kept; success puts the work on top of the source branch. When no command fails of itself, exactly what decides the result: unmerged paths, a run branch that exists, divergence, or a stopped rebase |
| `GitPreflight.Repository.FastForwardUpstream` | internal/tagteam/git_sync_preflight.go:213-238 | only ever fast-forwards; reports divergence only where no fast-forward exists |
| `GitPreflight.Repository.RebaseCheckpoint` | internal/tagteam/git_sync_preflight.go:273-286 | a rebased checkpoint keeps its work and has the source tip; a failed rebase leaves it as it was |
| `GitPreflight.Repository.CreateCheckpointBranch` | internal/tagteam/runner_part07.go:531-556 | the work is on the new branch, or still in the worktree, wherever it fails |
| `GitPreflight.NothingOnlyIn` | internal/tagteam/git_sync_preflight.go:256-271 | a count of zero commits on one side means ancestry |
| `Lifecycle.ControlRuntime.RegisterJob` | internal/tagteam/control_runtime_lifecycle.go:5-16 | adds the job and installs a watcher if there is none, as the register step does |
| `Lifecycle.ControlRuntime.UnregisterJob` | internal/tagteam/control_runtime_lifecycle.go:18-36 | removes the job, and hands out the watcher to stop exactly when no job is left, as the end step does |
| `Lifecycle.ControlRuntime.CloseAll` | internal/tagteam/control_runtime_lifecycle.go:53-72 | closes, and hands out every cancel function and the watcher, as the close step does |
| `Lifecycle.EveryStateOk` | internal/tagteam/control_runtime_lifecycle.go:5-85 | the invariant of jobs, watchers, locks and wait group holds in every interleaving |
| `Lifecycle.WatcherExactlyWithJobs` | internal/tagteam/control_runtime_lifecycle.go:5-36 | a watcher is installed exactly when a job is registered |
| `Lifecycle.AwaitedAreCancelled` | internal/tagteam/control_runtime_lifecycle.go:53-85 | in every run without a clash of run identifiers, every worker still running is cancelled before close starts to wait |
| `Lifecycle.QuietForever` | internal/tagteam/control_runtime_lifecycle.go:53-85 | once close has returned, no worker is live or registered and no watcher runs, whatever is called later |
| `Lifecycle.CloseNeverStuck` | internal/tagteam/control_runtime_lifecycle.go:53-85 | a close in progress can go on, or waits for a goroutine that can, or for a running worker that nobody has cancelled; the last never happens without a clash |
| `Lifecycle.LockNeverStuck` | internal/tagteam/control_runtime.go:163-171 | a close waiting for the lifecycle lock waits for a call that can go on |
| `Lifecycle.StepsUseUp` | internal/tagteam/control_runtime_lifecycle.go:18-85 | every step but a new call or an outside cancel decreases a natural measure, so close returns |
| `Lifecycle.ClashExactly` | internal/tagteam/control_runtime_lifecycle.go:5-85 | a registration is a clash if and only if some continuation without further registrations has close waiting for an uncancelled worker |
| `Lifecycle.ClashBreaksClose` | internal/tagteam/control_runtime_lifecycle.go:5-85 | builds that continuation from any reachable state |
| `Lifecycle.TwinRun` | internal/tagteam/control_runtime_lifecycle.go:18-36 | a run from the start in which the first worker's unregistering removes the second one's cancel function, and close waits for the second |
| `Approvals.EveryRunKeepsInv` | internal/tagteam/control_runtime.go:222-347 | in every run: nonces distinct across sections, idempotency keys distinct, one resume and one cancel a run, sections bounded, one pending start, no nonce consumed again before its approval has expired |
| `Approvals.TwiceOnlyAcrossExpiry` | internal/tagteam/control_start_runtime.go:53-78 | an approval consumed twice was validated before it expired and checked against the ledger after |
| `Approvals.OneReadingConsumesOnce` | internal/tagteam/control_runtime.go:222-347 | if every request validates and checks at one clock reading, no approval is consumed twice in any run |
| `ApprovalReuse.RepeatedStart` | internal/tagteam/control_runtime.go:222-269 | in every ledger: a repeated start gets the first one's run if and only if its approval is unexpired at the pruning, and consumes it again if and only if it is expired and nothing else stands in the way |
| `ApprovalReuse.TwoStarts` | internal/tagteam/control_runtime.go:222-269 | from the empty ledger, a start repeated across its approval's expiry consumes the approval twice |
| `ApprovalReuse.ConsumedTwice` | internal/tagteam/control_runtime.go:222-269 | a concrete run that does |
| `ApprovalAnswers.ResumeExactly` | internal/tagteam/control_resume_runtime.go:117-185 | in every ledger, under a valid approval: the exact request gets its run again; a nonce consumed for anything else, and a second resume of the run, are refused, each with its reason; any other resume is accepted while there is room, with the record it leaves |
| `ApprovalAnswers.CancelExactly` | internal/tagteam/control_runtime.go:334-426 | the same for a cancel |
| `ApprovalAnswers.LookupExactly` | internal/tagteam/control_resume_runtime.go:159-185 | one of four cases always holds of a section and a request, and each has its own answer |
| `ApprovalAnswers.KeyDecides` | internal/tagteam/control_runtime.go:222-234 | an unexpired start with the key replays the same action and refuses another |
| `ApprovalAnswers.NewStartExactly` | internal/tagteam/control_runtime.go:221-269 | a start with a new key: which refusal it gets, or the record it leaves behind the unexpired ones |
| `ApprovalAnswers.ValidExactly` | internal/tagteam/control_start_runtime.go:53-78 | an approval is valid if and only if it is for the action, has a short normalized nonce, and the clock is within its bounded lifetime |
| `ApprovalAnswers.RefusedAs` | internal/tagteam/control_start_runtime.go:53-78 | an approval that has only expired is refused as expired, one for another action as that |
| `ApprovalAnswers.InvalidIsRefused` | internal/tagteam/control_start_runtime.go:53-78 | without a valid approval the ledger is left alone |
| `Approvals.AcceptedIsFresh` | internal/tagteam/control_start_runtime.go:80-97 | a consumption finds its nonce nowhere in the ledger and keeps the ledger's invariant |
| `Approvals.StillRemembered` | internal/tagteam/control_runtime.go:710-721 | pruning forgets only approvals that have expired |
| `Approvals.PendingStaysUnique` | internal/tagteam/control_runtime.go:723-739 | at most one unexpired start lacks a final record |
| `ControlLedger.ApprovalFile.Start` | internal/tagteam/control_runtime.go:222-269 | the ledger part of a start is the start step, whatever the write does |
| `ControlLedger.ApprovalFile.Resume` | internal/tagteam/control_resume_runtime.go:117-144 | the ledger part of a resume is the resume step |
| `ControlLedger.ApprovalFile.Cancel` | internal/tagteam/control_runtime.go:334-347 | the ledger part of a cancel is the cancel step |
| `ControlLedger.PruneStartRecords` | internal/tagteam/control_runtime.go:710-721 | keeps exactly the unexpired records, in order |
| `ControlLedger.LedgerHasNonce` | internal/tagteam/control_start_runtime.go:80-97 | finds a nonce in any of the three sections |
| `ControlLedger.ResumeLedgerResult` | internal/tagteam/control_resume_runtime.go:159-185 | replays the exact request, refuses a consumed run or nonce |
| `ControlLedger.CancelLedgerResult` | internal/tagteam/control_runtime.go:403-426 | replays the exact request, refuses a consumed run or nonce |
| `PanelBudget.PanelStore.AdmitPanel` | internal/tagteam/panel_budget.go:73-104 | admits within both limits, returns a known panel again, and changes nothing on any error |
| `PanelBudget.PanelStore.UpdatePanel` | internal/tagteam/panel_budget.go:106-170 | start, complete and cancel behind the fence; a refused update leaves the ledger unchanged |
| `PanelBudget.EveryRunConserves` | internal/tagteam/panel_budget.go:73-170 | in every ledger reachable from an initialized one, all four counters equal their sums over the panels, and reserved plus used stays within each limit |
| `PanelBudget.OverdrawnExactly` | internal/tagteam/panel_budget.go:136-148 | reserved work can be driven negative if and only if it is below the reserved concurrency |
| `PanelBudget.StartsBlockedExactly` | internal/tagteam/panel_budget.go:106-121 | an admitted member can be refused its start if and only if reserved work is below reserved concurrency and some member is unstarted |
| `PanelBudget.CoveredRunsAreSafe` | internal/tagteam/panel_budget.go:73-170 | with a unit of work for each member admitted, no reachable ledger is overdrawn and every unstarted member can start |
| `PanelBudget.OverdrawnRun` | internal/tagteam/panel_budget.go:136-148 | a run that ends with reserved work at minus one |
| `PanelBudget.CoverageStays` | internal/tagteam/panel_budget.go:73-170 | panels admitted with a unit of work a member keep reserved work at or above reserved concurrency, for ever |
| `PanelBudget.PanelsEnd` | internal/tagteam/panel_budget.go:106-170 | each step strictly decreases twice the unstarted plus the running members; finished panels accept no step and hold nothing |
| `PanelBudget.AdmittedExactly` | internal/tagteam/panel_budget.go:73-104 | a new panel is admitted if and only if its members and work fit beside those of all panels; and as what |
| `PanelBudget.AdmittedAgain` | internal/tagteam/panel_budget.go:80-85 | a known panel is answered as it is, under its own definition only |
| `PanelBudget.MemberExactly` | internal/tagteam/panel_budget.go:106-170 | under a panel's fence, when each operation is accepted or refused and how; one count of that panel moves by one, and a finished panel is named after the operation that finished it |
| `PanelBudget.FencedOff` | internal/tagteam/panel_budget.go:150-163 | a missing panel and another fence are refused |
| `PanelBudget.PanelStays` | internal/tagteam/panel_budget.go:73-170 | over every run a panel's fence and definition never change |
| `EmbeddedJson.ExtractUndoesPrint` | internal/tagteam/adapters_part02.go:40-78 | for every JSON object in every spelling, after text without an opening brace and before any text, extraction returns exactly the printed object |
| `EmbeddedJson.ExtractIsStable` | internal/tagteam/adapters_part02.go:40-78 | whatever is extracted is a balanced part of the text and is extracted whole from itself; nothing is found exactly where no brace opens |
| `EmbeddedJson.ExtractJSONObject` | internal/tagteam/adapters_part02.go:40-78 | the scanning loop computes the shortest balanced text from the first brace |
| `EmbeddedJson.JsonObjectCandidates` | internal/tagteam/adapters_part02.go:88-143 | both loops terminate with the fenced objects, then the braced ones, deduplicated and bounded |
| `EmbeddedJson.CandidatesAreSound` | internal/tagteam/adapters_part02.go:88-143 | for every text: at most eight candidates, all distinct, each a balanced part of the text |
| `EmbeddedJson.UnmatchedBracesHide` | internal/tagteam/adapters_part02.go:126-141 | unmatched opening braces in a prefix without quotes or closing braces hide the object if and only if there are more than 63 |
| `EmbeddedJson.FencedObjectComesFirst` | internal/tagteam/adapters_part02.go:101-125 | an object alone in the first fenced block is the first candidate, whatever surrounds the block |
| `JsonSearch.EveryObjectIsFound` | internal/tagteam/adapters_part02.go:88-143 | in a reply without fences, for objects with prose around them that opens no brace: the candidates are exactly the first sixty-four, in order and distinct, up to the eighth |
| `JsonSearch.EveryFencedObjectIsFound` | internal/tagteam/adapters_part02.go:101-125 | for fenced blocks that each hold an object: the candidates begin with all these objects, in order and distinct, up to the eighth |
| `JsonSearch.OtherBlocksAddNothing` | internal/tagteam/adapters_part02.go:117-122 | a fenced block that starts otherwise adds nothing |
| `EmbeddedJson.DecodeEmbeddedJSON` | internal/tagteam/adapters_part02.go:145-161 | accepts the reply itself or the first acceptable candidate, and otherwise returns the reply's own error |
| `Scope.NormalizeAllowedScope` | internal/tagteam/quality_gates.go:85-107 | the sorted listing without duplicates of the entries' normal forms |
| `Text.SpaceCodes` | internal/tagteam/quality_gates.go:89 | the white space trimmed is exactly the ASCII one |
| `Scope.PathAllowed` | internal/tagteam/quality_gates.go:167-177 | some entry is everything, the path, or a directory above it |
| `Scope.OverlapIsExact` | internal/tagteam/quality_gates.go:294-323 | the overlap of two entries admits a path if and only if both do and they are not a file and the directory of its name |
| `Scope.IntersectionIsExact` | internal/tagteam/quality_gates.go:277-292 | a path is admitted by the intersection if and only if an entry of each side admits it and the two overlap |
| `Scope.IntersectAllowedScopes` | internal/tagteam/quality_gates.go:277-292 | the sorted listing of all overlaps, independent of map order |
| `Scope.IdempotentExactly` | internal/tagteam/quality_gates.go:85-107 | normalising twice changes nothing if and only if normalising once left no outer white space |
| `ScopeMeaning.NormalExactly` | internal/tagteam/quality_gates.go:85-107 | which entries are dropped; every other one becomes its names with single slashes between them, with its final slash |
| `ScopeMeaning.AdmitsExactly` | internal/tagteam/quality_gates.go:167-177 | a file entry admits exactly its path, a directory entry exactly the paths whose names start with its names |
| `ScopeMeaning.RoundAllows` | internal/tagteam/quality_gates.go:255-292 | what a round may write, in each of the four cases |
| `Scope.AllowedScopeForRound` | internal/tagteam/quality_gates.go:255-273 | intersection, operator scope, package scope, or everything |
| `Scope.OperatorBoundsExactly` | internal/tagteam/quality_gates.go:255-292 | every package plan stays within a non-empty operator scope if and only if the scope covers its own second normalisation |
| `Scope.SteadyOperatorBounds` | internal/tagteam/quality_gates.go:255-292 | which holds for every operator scope whose normal forms have no outer white space |
| `Scope.OperatorBoundCanFail` | internal/tagteam/quality_gates.go:255-292 | an operator scope outside which a round is allowed to write |
| `AcpCalls.CallsGetTheirOwn` | internal/tagteam/acp_stdio.go:71-94 | in every interleaving each channel gets at most one value, and a response a caller gets has its own id |
| `AcpCalls.NoSendBlocks` | internal/tagteam/acp_stdio.go:154-196 | no send ever finds a full channel, so the reader never blocks and `rejectPending` never stops halfway |
| `AcpCalls.EarlyCallsFinish` | internal/tagteam/acp_stdio.go:126-152 | after the stream has ended, a call registered before has a step of its own that brings it closer to its end; a waiting call has a value if and only if it is not late |
| `AcpCalls.OthersDoNotInterfere` | internal/tagteam/acp_stdio.go:126-152 | nothing anyone else does then changes the call or its channel |
| `AcpCalls.LatenessIsFixed` | internal/tagteam/acp_stdio.go:71-94 | a late call stays late and is never answered |
| `AcpCalls.OpenMeansInTime` | internal/tagteam/acp_stdio.go:148-150 | a call registered while the client is not closed is not late |
| `AcpCalls.LateCallHangs` | internal/tagteam/acp_stdio.go:71-94 | a run in which a caller waits for ever on a closed client unless it is cancelled |
| `AcpCalls.Client.RejectPending` | internal/tagteam/acp_stdio.go:189-196 | every pending channel gets exactly one rejection and the table ends empty, as the rejection step does |
| `AcpCalls.InvAllowsRejection` | internal/tagteam/acp_stdio.go:189-196 | in every reachable table no two calls share a channel and every channel exists |
| `AcpCalls.Client.Take` | internal/tagteam/acp_stdio.go:155-163 | removes the call with that id, if any, and returns its channel |
| `AcpAnswers.EndsAsItHappened` | internal/tagteam/acp_stdio.go:71-94 | in every interleaving a call ends only with a response dispatched under its own identifier, with the error of the stream's end, by its own failed write, or by its own cancellation |
| `AcpAnswers.ResponseArrives` | internal/tagteam/acp_stdio.go:154-170 | the first response under a registered call's identifier is from then on, in every continuation, the only value that the call has or can receive |
| `AcpAnswers.StrayResponse` | internal/tagteam/acp_stdio.go:154-165 | a response nobody waits for changes nothing |
| `AcpAnswers.AnsweredRun` | internal/tagteam/acp_stdio.go:71-94 | for every answer, a run from the start in which the caller gets it |
| `Findings.UpdateFindingsLedger` | internal/tagteam/findings.go:171-255 | writes the reconciled entries, each under its own id, strictly ordered by id |
| `Findings.FindingsFile.Update` | internal/tagteam/findings.go:166-262 | a file that cannot be read or written is left alone or holds the whole update; the summary is returned exactly when the update is durable, and counts it |
| `Findings.OpenGatesAreTheResult` | internal/tagteam/findings.go:214-250 | after an update with a gate result, the open gate entries are exactly that result's findings |
| `Findings.UpdateIsKeyed` | internal/tagteam/findings.go:172-250 | no id disappears, and none appears but those of the reported findings |
| `Findings.UnmentionedStay` | internal/tagteam/findings.go:176-250 | an entry the update does not mention is unchanged, but for open gate entries, which a gate result resolves |
| `Findings.LastDispositionWins` | internal/tagteam/findings.go:177-190 | a disposition changes status and evidence of a known entry and nothing else; the last one counts |
| `Findings.ReportedIsOpen` | internal/tagteam/findings.go:176-250 | after a whole update, a reported finding is open under the identifier it came with, even if the same review disposes of that entry |
| `Findings.DisposedIsDecided` | internal/tagteam/findings.go:176-250 | after a whole update, an entry that is only disposed of has that status and evidence, unless a gate result then resolves it |
| `Findings.LastReportWins` | internal/tagteam/findings.go:191-212 | a review finding ends open, as last reported under its id, with its first round kept |
| `Findings.LastGateFindingWins` | internal/tagteam/findings.go:216-235 | a gate finding ends open, as last reported under its id, with a first round that was set kept |
| `Findings.UpdateKeepsRounds` | internal/tagteam/findings.go:191-250 | with rounds that do not decrease, first round, last round and current round stay in order |
| `Findings.EveryLedgerIsOrdered` | internal/tagteam/findings.go:166-262 | in every run of updates from no ledger, with failed writes and rounds that do not decrease: entries ordered by id, no id twice, first round, last round and current round in order |
| `Findings.FirstRoundsLast` | internal/tagteam/findings.go:166-262 | between any two ledgers of such a run, no entry is lost and a first round that was set is kept |
| `Findings.ListingIsUnique` | internal/tagteam/findings.go:251-255 | the written ledger does not depend on map order |
| `Findings.SummarizeFindings` | internal/tagteam/findings.go:264-276 | counts the open entries, and the open blocking ones |
| `Findings.DeferFinding` | internal/tagteam/findings.go:278-310 | defers the first entry with the id if it is blocking, and says why not otherwise |
| `Findings.ResolveNonBlockingReviewFinding` | internal/tagteam/findings.go:316-353 | fixes the first entry with the id exactly if it is an open, minor or nit review finding |
| `ManagedBlock.PlanTwice` | internal/tagteam/integration_config.go:21-43 | planning what was planned changes nothing; planning and uninstalling fail exactly on corrupt markers |
| `ManagedBlock.PlanChanges` | internal/tagteam/integration_config.go:21-43 | a plan counts as a change if and only if the text differs; a first plan only ends an unfinished last line before the block |
| `ManagedBlock.SpanExactly` | internal/tagteam/integration_config.go:124-138 | a block is seen if and only if the first begin marker comes before the first end marker, up to the end of that line |
| `ManagedBlock.CorruptExactly` | internal/tagteam/integration_config.go:124-138 | markers are corrupt if and only if there is one and no block is seen |
| `ManagedBlock.PlanKeepsTheRest` | internal/tagteam/integration_config.go:21-43 | all text outside the block is kept, and the block is found where it was written |
| `ManagedBlock.UninstallUndoesPlan` | internal/tagteam/integration_config.go:94-102 | uninstalling a planned text gives the original, with a newline added only if it was non-empty and unterminated; a block that was there makes no difference |
| `ManagedBlock.UninstallCleans` | internal/tagteam/integration_config.go:94-102 | after uninstalling, the file counts as not installed if and only if no marker followed the block and none comes together from its two sides |
| `ManagedBlock.LineStartNeverBridges` | internal/tagteam/integration_config.go:94-102 | none comes together around a block that started its line |
| `ManagedBlock.BlockIsFound` | internal/tagteam/integration_config.go:124-138 | no marker straddles the edge of a written block, whatever surrounds it |

## Left out

- Redaction.StreamRefinesWhole: with several secrets its condition suffices but is not necessary: a bad cut can be repaired by a shorter secret that is replaced later.
- Secrecy.StreamKeepsSecrets: with several secrets its condition suffices; the exact one, `Secrecy.NeverStreamedExactly`, is for one.
- Redaction.SingleSecretExact: with `Redaction.HazardBreaks`, is stated for secrets that do not begin with the whole marker, where a replaced text can equal an unreplaced one by accident.
- InvocationStreams.InvocationStream.Close: does not model the errors of syncing and closing the file.
- InvocationStreams.InvocationStream.Write: does not model a failing write to the file, whose error is kept and reported on close, nor `Sync`.
- Journal.RunDirectory.PrepareOperation: does not model the freezing and validation of the execution snapshot, which is an input, nor the time stamps of a record.
- GitPreflight.Repository.PrepareIntegratedRun: Git's own content merging is a commit with both parents or a stop; hooks, ignored files and other processes moving refs are not modelled.
- Approvals.EveryRunKeepsInv: a request reads which runs have finished once; the ledger lock makes a request one step.
- PanelBudget.EveryRunConserves: 64-bit overflow of the counters is not modelled.
- EmbeddedJson.UnmatchedBracesHide: prefixes with quotes, closing braces or fences are not characterised, only the soundness of what is found in them.
- Scope.NormalizeAllowedScope: like all trimming here, removes ASCII white space only; the Unicode spaces that `strings.TrimSpace` also removes are not modelled.
- Which values are secrets, and their order, longest first: the model takes any non-empty strings in any order.
- Paths are Unix paths: `filepath.ToSlash` is the identity and only a leading slash makes a path absolute.
- Adapter command lines, HTTP and subprocess calls, prompts, catalogs and the terminal interface: input and output without an invariant.
- Resume and recovery drivers, symbolic links and path boundaries: their meaning is in the operating system and in files not modelled here.
- JSON targets of the integration editor, validation of operator paths, host-owned paths and churn limits: they would add only simple members.
- Server requests and notifications of the ACP client: they do not touch the pending-call table.
- The JSON encoding of records and hashing: digests are uninterpreted and a file holds a record or does not parse.
