/** The replay journal as a history: what one `prepareOperation` or `transitionOperation` call does
to the sequence of operation records, and what holds over every run of such calls and crashes. */
module Replay {
  import opened Options
  import opened Durable

  const VERSION := 2

  datatype State = Prepared | InFlight | Committed | Failed | InDoubt

  /** The provider's answer, without its raw bytes, which are never persisted. */
  type Outcome = string

  datatype Envelope = Envelope(version: int, opType: string, idempotencyKey: string, body: string)

  datatype Snapshot = Snapshot(runID: string, revision: string)

  datatype Record = Record(
    schema: int, runID: string, revision: string, sequence: nat, opType: string,
    requestHash: Option<nat>, metadata: map<string, string>, idempotencyKey: string,
    state: State, resultHash: Option<nat>, result: Option<Outcome>,
    attempt: int, duplicateRisk: bool, recovery: string, generation: nat)

  /** SHA-256 over canonical JSON, left uninterpreted. */
  datatype Digests = Digests(record: Record -> nat, result: Outcome -> nat, request: Envelope -> nat)

  datatype Reason =
    | BadSnapshot | BadEnvelope | BadStream | UnresolvedMismatch | StaleFence | BadTransition | MissingRecord

  /** `Unrecorded` is a divergence whose record could not be written. */
  datatype Reply =
    | Dispatch(record: Record) | Replay(record: Record, result: Option<Outcome>)
    | Diverged(reason: Reason) | WriteFailed | Unrecorded

  /** What `divergence.json` says of a request that does not fit the unresolved one. */
  datatype Divergence = Divergence(
    sequence: nat, expectedType: string, actualType: string, expectedHash: Option<nat>, actualHash: nat)

  predicate Unresolved(s: State) {
    s in {Prepared, InFlight, InDoubt}
  }

  predicate ValidTransition(from: State, to: State) {
    match from
    case Prepared => to in {InFlight, Failed}
    case InFlight => to in {Committed, Failed, InDoubt}
    case InDoubt => to in {Committed, InFlight, Failed}
    case _ => false
  }

  /** The content checks of `readOperation`. */
  predicate Readable(d: Digests, r: Record) {
    && r.schema == VERSION && r.sequence != 0 && r.requestHash.Some?
    && (r.state == Committed ==> r.result.Some? && r.resultHash.Some?)
    && (r.result.Some? ==> r.resultHash == Some(d.result(r.result.value)))
  }

  predicate InStream(d: Digests, snap: Snapshot, r: Record, sequence: nat) {
    Readable(d, r) && r.sequence == sequence && r.runID == snap.runID && r.revision == snap.revision
  }

  // ------------------------------------------------------------- one call

  datatype Effect = Effect(stream: seq<Record>, reply: Reply)

  function Replaced(s: seq<Record>, i: nat, r: Record, w: WriteOutcome): seq<Record>
    requires i <= |s|
  {
    if w.NotReplaced? then s else if i < |s| then s[i := r] else s + [r]
  }

  /** The unresolved tail, asked for again: an in-flight tail is first put in doubt, durably. */
  function Retried(r: Record): Record {
    var doubted := Doubted(r);
    doubted.(attempt := r.attempt + 1, duplicateRisk := doubted.state == InDoubt)
  }

  function Doubted(r: Record): Record {
    if r.state == InFlight then
      r.(state := InDoubt, duplicateRisk := true, recovery := "crash_after_dispatch_before_durable_commit")
    else r
  }

  function Fresh(d: Digests, snap: Snapshot, env: Envelope, metadata: map<string, string>, sequence: nat): Record {
    Record(VERSION, snap.runID, snap.revision, sequence, env.opType, Some(d.request(env)), metadata, env.idempotencyKey,
           Prepared, None, None, 1, false, "", sequence)
  }

  /** The retry of an unresolved tail; only a tail in flight needs the first of two writes. */
  function Retry(s: seq<Record>, w1: WriteOutcome, w2: WriteOutcome): Effect
    requires s != []
  {
    var i := |s| - 1;
    if s[i].state == InFlight && !w1.Durable? then Effect(Replaced(s, i, Doubted(s[i]), w1), WriteFailed)
    else
      var w := if s[i].state == InFlight then w2 else w1;
      var s1 := if s[i].state == InFlight then s[i := Doubted(s[i])] else s;
      Effect(Replaced(s1, i, Retried(s[i]), w), if w.Durable? then Dispatch(Retried(s[i])) else WriteFailed)
  }

  /** `prepareOperation` on a valid stream; `w1` is the fate of its first write, `w2` of its second. */
  function Prepare(d: Digests, snap: Snapshot, s: seq<Record>, opType: string, env: Envelope,
                   metadata: map<string, string>, w1: WriteOutcome, w2: WriteOutcome): Effect
  {
    if env.version != VERSION || env.opType != opType then Effect(s, Diverged(BadEnvelope))
    else
      var n := |s|;
      if n > 0 && Unresolved(s[n - 1].state) then
        var tail := s[n - 1];
        if tail.opType != opType || tail.requestHash != Some(d.request(env)) then
          Effect(s, if w1.Durable? then Diverged(UnresolvedMismatch) else Unrecorded)
        else Retry(s, w1, w2)
      else if n > 0 && s[n - 1].state == Committed && s[n - 1].opType == opType
           && s[n - 1].requestHash == Some(d.request(env)) then
        Effect(s, Replay(s[n - 1], s[n - 1].result))
      else
        var r := Fresh(d, snap, env, metadata, n + 1);
        Effect(Replaced(s, n, r, w1), if w1.Durable? then Dispatch(r) else WriteFailed)
  }

  /** The divergence file after a request: only a mismatch with the unresolved tail writes it. */
  function DivergenceAfter(d: Digests, s: seq<Record>, opType: string, env: Envelope,
                           was: Option<Divergence>, w: WriteOutcome): Option<Divergence>
  {
    var n := |s|;
    if env.version == VERSION && env.opType == opType && n > 0 && Unresolved(s[n - 1].state)
       && (s[n - 1].opType != opType || s[n - 1].requestHash != Some(d.request(env))) && !w.NotReplaced?
    then Some(Divergence(s[n - 1].sequence, s[n - 1].opType, opType, s[n - 1].requestHash, d.request(env)))
    else was
  }

  function Moved(d: Digests, r: Record, to: State, result: Option<Outcome>, recovery: string): Record {
    var q := r.(state := to, recovery := recovery, duplicateRisk := r.duplicateRisk || to == InDoubt);
    if result.Some? then q.(result := result, resultHash := Some(d.result(result.value))) else q
  }

  /** `transitionOperation` for a holder of the record with this sequence and fence. */
  function Transition(d: Digests, s: seq<Record>, sequence: nat, fence: nat, to: State,
                      result: Option<Outcome>, recovery: string, w: WriteOutcome): Effect
  {
    if sequence == 0 || sequence > |s| then Effect(s, Diverged(MissingRecord))
    else
      var r := s[sequence - 1];
      if r.generation != fence then Effect(s, Diverged(StaleFence))
      else if !ValidTransition(r.state, to) then Effect(s, Diverged(BadTransition))
      else
        var q := Moved(d, r, to, result, recovery);
        Effect(Replaced(s, sequence - 1, q, w), if w.Durable? then Dispatch(q) else WriteFailed)
  }

  // ----------------------------------------------------------------- runs

  /** A call, or a crash: a crash loses every record held in memory and nothing on disk, so the
      calls after it may name any record and any fence. */
  datatype Action =
    | DoPrepare(opType: string, env: Envelope, metadata: map<string, string>, w1: WriteOutcome, w2: WriteOutcome)
    | DoTransition(sequence: nat, fence: nat, to: State, result: Option<Outcome>, recovery: string, w: WriteOutcome)
    | Crash

  /** The stream, and for each record how often it has entered `in_flight` on disk. */
  datatype History = History(stream: seq<Record>, dispatches: seq<nat>)

  function Act(d: Digests, snap: Snapshot, h: History, a: Action): History
    requires |h.dispatches| == |h.stream|
  {
    match a
    case DoPrepare(opType, env, metadata, w1, w2) =>
      var s := Prepare(d, snap, h.stream, opType, env, metadata, w1, w2).stream;
      History(s, if |s| > |h.stream| then h.dispatches + [0] else h.dispatches)
    case DoTransition(sequence, fence, to, result, recovery, w) =>
      var s := Transition(d, h.stream, sequence, fence, to, result, recovery, w).stream;
      if to == InFlight && s != h.stream && 0 < sequence <= |h.stream|
      then History(s, h.dispatches[sequence - 1 := h.dispatches[sequence - 1] + 1])
      else History(s, h.dispatches)
    case Crash => h
  }

  /** Commits carry a result. */
  predicate CommitsCarryResults(a: Action) {
    a.DoTransition? && a.to == Committed ==> a.result.Some?
  }

  /** What every record of every reachable history satisfies. */
  ghost predicate RecordOk(d: Digests, snap: Snapshot, r: Record, sequence: nat, dispatches: nat) {
    && InStream(d, snap, r, sequence)
    && r.generation == sequence
    && (r.state == Prepared ==> dispatches == 0 && !r.duplicateRisk)
    && (r.state in {InFlight, InDoubt, Committed} ==> dispatches >= 1)
    && (r.state == InDoubt ==> r.duplicateRisk)
    && (dispatches >= 2 ==> r.duplicateRisk) && (r.duplicateRisk ==> dispatches >= 1)
  }

  ghost predicate WellFormed(d: Digests, snap: Snapshot, h: History) {
    && |h.dispatches| == |h.stream|
    && (forall i :: 0 <= i < |h.stream| ==> RecordOk(d, snap, h.stream[i], i + 1, h.dispatches[i]))
    && (forall i :: 0 <= i < |h.stream| - 1 ==> !Unresolved(h.stream[i].state))
  }

  /** What later histories keep of earlier ones. */
  ghost predicate Extends(h: History, later: History) {
    && |h.stream| <= |later.stream|
    && |h.dispatches| == |h.stream| && |later.dispatches| == |later.stream|
    && forall i :: 0 <= i < |h.stream| ==> Kept(h.stream[i], later.stream[i]) && h.dispatches[i] <= later.dispatches[i]
  }

  /** A resolved record never changes, the request behind a record never changes, and the
      duplicate-effect mark is never taken back. */
  predicate Kept(r: Record, q: Record) {
    && (!Unresolved(r.state) ==> q == r)
    && (r.duplicateRisk ==> q.duplicateRisk)
    && r.sequence == q.sequence && r.opType == q.opType && r.requestHash == q.requestHash
    && r.idempotencyKey == q.idempotencyKey && r.generation == q.generation && r.attempt <= q.attempt
  }

  lemma RetryKeepsRecord(d: Digests, snap: Snapshot, r: Record, sequence: nat, dispatches: nat)
    requires RecordOk(d, snap, r, sequence, dispatches) && Unresolved(r.state)
    ensures RecordOk(d, snap, Doubted(r), sequence, dispatches) && Kept(r, Doubted(r)) && Unresolved(Doubted(r).state)
    ensures RecordOk(d, snap, Retried(r), sequence, dispatches) && Kept(r, Retried(r)) && Unresolved(Retried(r).state)
  {}

  lemma MoveKeepsRecord(d: Digests, snap: Snapshot, r: Record, sequence: nat, dispatches: nat,
                        to: State, result: Option<Outcome>, recovery: string)
    requires RecordOk(d, snap, r, sequence, dispatches) && ValidTransition(r.state, to)
    requires to == Committed ==> result.Some?
    ensures var q := Moved(d, r, to, result, recovery);
      RecordOk(d, snap, q, sequence, if to == InFlight then dispatches + 1 else dispatches) && Kept(r, q)
  {}

  /** Changing the tail, or adding a fresh record behind a resolved one, keeps a history well formed. */
  lemma TailChanges(d: Digests, snap: Snapshot, h: History, r: Record, n: nat)
    requires WellFormed(d, snap, h) && |h.stream| > 0
    requires var i := |h.stream| - 1;
      RecordOk(d, snap, r, i + 1, n) && Kept(h.stream[i], r) && h.dispatches[i] <= n
    ensures var i := |h.stream| - 1;
      var later := History(h.stream[i := r], h.dispatches[i := n]);
      WellFormed(d, snap, later) && Extends(h, later)
  {}

  lemma TailAdded(d: Digests, snap: Snapshot, h: History, env: Envelope, metadata: map<string, string>)
    requires WellFormed(d, snap, h)
    requires |h.stream| > 0 ==> !Unresolved(h.stream[|h.stream| - 1].state)
    ensures var r := Fresh(d, snap, env, metadata, |h.stream| + 1);
      var later := History(h.stream + [r], h.dispatches + [0]);
      WellFormed(d, snap, later) && Extends(h, later)
  {}

  lemma RetryKeeps(d: Digests, snap: Snapshot, h: History, w1: WriteOutcome, w2: WriteOutcome)
    requires WellFormed(d, snap, h) && h.stream != [] && Unresolved(h.stream[|h.stream| - 1].state)
    ensures var later := History(Retry(h.stream, w1, w2).stream, h.dispatches);
      |later.stream| == |h.stream| && WellFormed(d, snap, later) && Extends(h, later)
  {
    var i := |h.stream| - 1;
    var tail, n := h.stream[i], h.dispatches[i];
    RetryKeepsRecord(d, snap, tail, i + 1, n);
    TailChanges(d, snap, h, Retried(tail), n);
    TailChanges(d, snap, h, Doubted(tail), n);
    assert h.dispatches[i := n] == h.dispatches && h.stream[i := tail] == h.stream;
    assert h.stream[i := Doubted(tail)][i := Retried(tail)] == h.stream[i := Retried(tail)];
  }

  lemma PrepareKeeps(d: Digests, snap: Snapshot, h: History, a: Action)
    requires WellFormed(d, snap, h) && a.DoPrepare?
    ensures WellFormed(d, snap, Act(d, snap, h, a)) && Extends(h, Act(d, snap, h, a))
  {
    var n := |h.stream|;
    PrepareOutcome(d, snap, h, a);
    if n > 0 && Unresolved(h.stream[n - 1].state) {
      RetryKeeps(d, snap, h, a.w1, a.w2);
    } else {
      TailAdded(d, snap, h, a.env, a.metadata);
    }
  }

  /** A prepare leaves the history alone, retries its unresolved tail, or adds a fresh record. */
  lemma PrepareOutcome(d: Digests, snap: Snapshot, h: History, a: Action)
    requires a.DoPrepare? && |h.dispatches| == |h.stream|
    ensures
      var n, later := |h.stream|, Act(d, snap, h, a);
      || later == h
      || if n > 0 && Unresolved(h.stream[n - 1].state)
         then later == History(Retry(h.stream, a.w1, a.w2).stream, h.dispatches)
         else later == History(h.stream + [Fresh(d, snap, a.env, a.metadata, n + 1)], h.dispatches + [0])
  {}

  lemma TransitionKeeps(d: Digests, snap: Snapshot, h: History, a: Action)
    requires WellFormed(d, snap, h) && a.DoTransition? && CommitsCarryResults(a)
    ensures WellFormed(d, snap, Act(d, snap, h, a)) && Extends(h, Act(d, snap, h, a))
  {
    var i := a.sequence - 1;
    if 0 <= i < |h.stream| && h.stream[i].generation == a.fence && ValidTransition(h.stream[i].state, a.to) {
      var q := MovedTail(d, snap, h, a, i);
      TransitionOutcome(d, snap, h, a, i, q);
    }
  }

  /** A transition that the fence and the state allow replaces the record, or its write fails. */
  lemma TransitionOutcome(d: Digests, snap: Snapshot, h: History, a: Action, i: nat, q: Record)
    requires a.DoTransition? && |h.dispatches| == |h.stream| && i < |h.stream| && a.sequence == i + 1
    requires h.stream[i].generation == a.fence && ValidTransition(h.stream[i].state, a.to)
    requires q == Moved(d, h.stream[i], a.to, a.result, a.recovery) && q != h.stream[i]
    ensures
      var n := if a.to == InFlight then h.dispatches[i] + 1 else h.dispatches[i];
      || Act(d, snap, h, a) == h
      || Act(d, snap, h, a) == History(h.stream[i := q], h.dispatches[i := n])
  {
    assert h.stream[i := q][i] != h.stream[i];
    assert h.dispatches[i := h.dispatches[i]] == h.dispatches;
  }

  lemma MovedTail(d: Digests, snap: Snapshot, h: History, a: Action, i: nat) returns (q: Record)
    requires WellFormed(d, snap, h) && a.DoTransition? && CommitsCarryResults(a) && i < |h.stream|
    requires h.stream[i].generation == a.fence && ValidTransition(h.stream[i].state, a.to)
    ensures i == |h.stream| - 1 && q == Moved(d, h.stream[i], a.to, a.result, a.recovery) && q != h.stream[i]
    ensures
      var n := if a.to == InFlight then h.dispatches[i] + 1 else h.dispatches[i];
      var next := History(h.stream[i := q], h.dispatches[i := n]);
      WellFormed(d, snap, next) && Extends(h, next)
  {
    var r := h.stream[i];
    assert i == |h.stream| - 1;
    MoveKeepsRecord(d, snap, r, i + 1, h.dispatches[i], a.to, a.result, a.recovery);
    q := Moved(d, r, a.to, a.result, a.recovery);
    TailChanges(d, snap, h, q, if a.to == InFlight then h.dispatches[i] + 1 else h.dispatches[i]);
    assert q.state != r.state;
  }

  lemma ActKeeps(d: Digests, snap: Snapshot, h: History, a: Action)
    requires WellFormed(d, snap, h) && CommitsCarryResults(a)
    ensures WellFormed(d, snap, Act(d, snap, h, a)) && Extends(h, Act(d, snap, h, a))
  {
    match a
    case DoPrepare(_, _, _, _, _) => PrepareKeeps(d, snap, h, a);
    case DoTransition(_, _, _, _, _, _) => TransitionKeeps(d, snap, h, a);
    case Crash =>
  }

  /** A run, with the history before it and after each of its actions. */
  ghost predicate IsRun(d: Digests, snap: Snapshot, actions: seq<Action>, hs: seq<History>) {
    && |hs| == |actions| + 1
    && hs[0] == History([], [])
    && forall k :: 0 <= k < |actions| ==>
         |hs[k].dispatches| == |hs[k].stream| && CommitsCarryResults(actions[k])
         && hs[k + 1] == Act(d, snap, hs[k], actions[k])
  }

  /** In every run: records are numbered 1..n, only the last can be unresolved, every record can be
      read back, an operation dispatched twice is marked, a committed one was dispatched. */
  lemma {:induction false} EveryHistoryIsWellFormed(
    d: Digests, snap: Snapshot, actions: seq<Action>, hs: seq<History>, k: nat)
    requires IsRun(d, snap, actions, hs) && k < |hs|
    ensures WellFormed(d, snap, hs[k])
  {
    if k > 0 {
      EveryHistoryIsWellFormed(d, snap, actions, hs, k - 1);
      ActKeeps(d, snap, hs[k - 1], actions[k - 1]);
    }
  }

  /** Between any two moments of a run, resolved records and marks are kept. */
  lemma {:induction false} LaterExtendsEarlier(
    d: Digests, snap: Snapshot, actions: seq<Action>, hs: seq<History>, j: nat, k: nat)
    requires IsRun(d, snap, actions, hs) && j <= k < |hs|
    ensures Extends(hs[j], hs[k])
    decreases k
  {
    EveryHistoryIsWellFormed(d, snap, actions, hs, j);
    if j < k {
      LaterExtendsEarlier(d, snap, actions, hs, j, k - 1);
      EveryHistoryIsWellFormed(d, snap, actions, hs, k - 1);
      ActKeeps(d, snap, hs[k - 1], actions[k - 1]);
      ExtendsIsTransitive(hs[j], hs[k - 1], hs[k]);
    }
  }

  lemma ExtendsIsTransitive(a: History, b: History, c: History)
    requires Extends(a, b) && Extends(b, c)
    ensures Extends(a, c)
  {
    forall i | 0 <= i < |a.stream| ensures Kept(a.stream[i], c.stream[i]) && a.dispatches[i] <= c.dispatches[i] {
      assert Kept(a.stream[i], b.stream[i]) && Kept(b.stream[i], c.stream[i]);
    }
  }

  // ---------------------------------------------------- replay and its limits

  /** Asking again for the committed tail returns the stored result and changes nothing, whatever
      the writes would have done. */
  lemma CommittedTailIsReplayed(d: Digests, snap: Snapshot, h: History, env: Envelope,
                                metadata: map<string, string>, w1: WriteOutcome, w2: WriteOutcome)
    requires WellFormed(d, snap, h) && h.stream != []
    requires var tail := h.stream[|h.stream| - 1];
      tail.state == Committed && tail.opType == env.opType && tail.requestHash == Some(d.request(env))
    requires env.version == VERSION
    ensures var e := Prepare(d, snap, h.stream, env.opType, env, metadata, w1, w2);
      && e.stream == h.stream && e.reply == Replay(h.stream[|h.stream| - 1], h.stream[|h.stream| - 1].result)
      && e.reply.result.Some?
  {}

  /** A request other than the unresolved one is refused and leaves the journal alone; only the
      exact request can take the journal further. */
  lemma OnlyTheExactRequestContinues(d: Digests, snap: Snapshot, h: History, opType: string, env: Envelope,
                                     metadata: map<string, string>, w1: WriteOutcome, w2: WriteOutcome)
    requires WellFormed(d, snap, h) && h.stream != [] && Unresolved(h.stream[|h.stream| - 1].state)
    ensures var tail := h.stream[|h.stream| - 1];
      var e := Prepare(d, snap, h.stream, opType, env, metadata, w1, w2);
      var exact := && env.version == VERSION && env.opType == opType == tail.opType
                   && tail.requestHash == Some(d.request(env));
      && |e.stream| == |h.stream|
      && (!exact ==> e.stream == h.stream && (e.reply.Diverged? || e.reply.Unrecorded?))
      && (exact <==> e.reply.Dispatch? || e.reply.WriteFailed?)
      && (e.reply.Dispatch? ==> e.reply.record.sequence == tail.sequence && e.reply.record.attempt == tail.attempt + 1
                                && e.reply.record.duplicateRisk == (tail.state != Prepared))
  {}

  /** An accepted, written transition leaves the stream readable exactly when it is not a commit
      without any result: such a commit makes the journal refuse every later request. */
  lemma ReadableAfterTransition(d: Digests, snap: Snapshot, h: History, a: Action)
    requires WellFormed(d, snap, h) && a.DoTransition? && !a.w.NotReplaced?
    requires 0 < a.sequence <= |h.stream| && a.fence == h.stream[a.sequence - 1].generation
    requires ValidTransition(h.stream[a.sequence - 1].state, a.to)
    ensures Readable(d, Act(d, snap, h, a).stream[a.sequence - 1])
      <==> !(a.to == Committed && a.result.None? && h.stream[a.sequence - 1].result.None?)
  {}

  /** The fence of a record is its sequence number and never changes, so every holder of an
      operation, however old, passes the fence check: it tells operations apart, not holders. */
  lemma FenceNeverMoves(d: Digests, snap: Snapshot, actions: seq<Action>, hs: seq<History>, j: nat, k: nat, i: nat)
    requires IsRun(d, snap, actions, hs) && j <= k < |hs| && i < |hs[j].stream|
    ensures i < |hs[k].stream| && hs[k].stream[i].generation == hs[j].stream[i].generation == i + 1
  {
    LaterExtendsEarlier(d, snap, actions, hs, j, k);
    EveryHistoryIsWellFormed(d, snap, actions, hs, j);
  }

  // ---------------------------------------------------- what calls answer

  /** The changes of state that a holder may make. */
  const MOVES: set<(State, State)> := {
    (Prepared, InFlight), (Prepared, Failed), (InFlight, Committed), (InFlight, Failed), (InFlight, InDoubt),
    (InDoubt, Committed), (InDoubt, InFlight), (InDoubt, Failed)}

  /** `q` is `r` in the new state, with the recovery text and, if there is one, the result; a doubt leaves its mark. */
  predicate MovedTo(d: Digests, r: Record, q: Record, to: State, result: Option<Outcome>, recovery: string) {
    && q.state == to && q.recovery == recovery && q.duplicateRisk == (r.duplicateRisk || to == InDoubt)
    && (result.Some? ==> q.result == result && q.resultHash == Some(d.result(result.value)))
    && (result.None? ==> q.result == r.result && q.resultHash == r.resultHash)
    && r == q.(state := r.state, recovery := r.recovery, duplicateRisk := r.duplicateRisk, result := r.result,
               resultHash := r.resultHash)
  }

  /** The stream with its `i`-th record replaced by `q`. */
  predicate OnlyAt(s: seq<Record>, later: seq<Record>, i: nat, q: Record) {
    i < |s| == |later| && later[i] == q && forall k :: 0 <= k < |s| && k != i ==> later[k] == s[k]
  }

  /** A transition is accepted exactly for an existing record, its fence, and one of the moves; what is then
      written is the moved record, and the holder is told so exactly if the write is durable. */
  lemma TransitionExactly(d: Digests, snap: Snapshot, h: History, sequence: nat, fence: nat, to: State,
                          result: Option<Outcome>, recovery: string, w: WriteOutcome)
    requires WellFormed(d, snap, h)
    ensures
      var e := Transition(d, h.stream, sequence, fence, to, result, recovery, w);
      if !(0 < sequence <= |h.stream|) then e == Effect(h.stream, Diverged(MissingRecord))
      else if fence != sequence then e == Effect(h.stream, Diverged(StaleFence))
      else if (h.stream[sequence - 1].state, to) !in MOVES then e == Effect(h.stream, Diverged(BadTransition))
      else
        && (w.NotReplaced? ==> e.stream == h.stream)
        && (!w.NotReplaced? ==>
              && MovedTo(d, h.stream[sequence - 1], e.stream[sequence - 1], to, result, recovery)
              && OnlyAt(h.stream, e.stream, sequence - 1, e.stream[sequence - 1]))
        && e.reply == if w.Durable? then Dispatch(e.stream[sequence - 1]) else WriteFailed
  {}

  /** The record of a new operation. */
  predicate IsNew(d: Digests, snap: Snapshot, r: Record, env: Envelope, metadata: map<string, string>, n: nat) {
    && r.schema == VERSION && r.runID == snap.runID && r.revision == snap.revision
    && r.sequence == r.generation == n && r.opType == env.opType && r.requestHash == Some(d.request(env))
    && r.metadata == metadata && r.idempotencyKey == env.idempotencyKey
    && r.state == Prepared && r.result.None? && r.resultHash.None?
    && r.attempt == 1 && !r.duplicateRisk && r.recovery == ""
  }

  /** The record of an operation asked for again while it was unresolved. */
  predicate IsRetry(r: Record, q: Record) {
    && q.attempt == r.attempt + 1 && q.duplicateRisk == (r.state != Prepared)
    && q.state == (if r.state == Prepared then Prepared else InDoubt)
    && q.recovery == (if r.state == InFlight then "crash_after_dispatch_before_durable_commit" else r.recovery)
    && r == q.(state := r.state, recovery := r.recovery, duplicateRisk := r.duplicateRisk, attempt := r.attempt)
  }

  /** What a request does when its writes are durable: it is dispatched as a new record behind a resolved tail,
      and as the tail itself when it is the unresolved one; it is replayed when it is the committed tail. */
  lemma PrepareExactly(d: Digests, snap: Snapshot, h: History, opType: string, env: Envelope,
                       metadata: map<string, string>)
    requires WellFormed(d, snap, h)
    ensures
      var n, e := |h.stream|, Prepare(d, snap, h.stream, opType, env, metadata, Durable, Durable);
      var same := n > 0 && h.stream[n - 1].opType == opType && h.stream[n - 1].requestHash == Some(d.request(env));
      if env.version != VERSION || env.opType != opType then e == Effect(h.stream, Diverged(BadEnvelope))
      else if n == 0 || h.stream[n - 1].state == Failed || (h.stream[n - 1].state == Committed && !same) then
        |e.stream| == n + 1 && e.stream[..n] == h.stream && e.reply == Dispatch(e.stream[n])
        && IsNew(d, snap, e.stream[n], env, metadata, n + 1)
      else if h.stream[n - 1].state == Committed then
        e == Effect(h.stream, Replay(h.stream[n - 1], h.stream[n - 1].result))
      else if !same then e == Effect(h.stream, Diverged(UnresolvedMismatch))
      else
        && OnlyAt(h.stream, e.stream, n - 1, e.stream[n - 1]) && e.reply == Dispatch(e.stream[n - 1])
        && IsRetry(h.stream[n - 1], e.stream[n - 1])
  {}

  /** When a write fails, the caller is told so, and the stream is as before or as after one of the two writes. */
  lemma FailedPrepare(d: Digests, snap: Snapshot, h: History, opType: string, env: Envelope,
                      metadata: map<string, string>, w1: WriteOutcome, w2: WriteOutcome)
    requires WellFormed(d, snap, h)
    ensures
      var e := Prepare(d, snap, h.stream, opType, env, metadata, w1, w2);
      var f := Prepare(d, snap, h.stream, opType, env, metadata, Durable, Durable);
      var n := |h.stream|;
      && (e == f || e.reply in {WriteFailed, Unrecorded})
      && (e.reply.Dispatch? ==> w1.Durable? && (n > 0 && h.stream[n - 1].state == InFlight ==> w2.Durable?))
      && (e.stream == h.stream || e.stream == f.stream
          || (n > 0 && h.stream[n - 1].state == InFlight
              && OnlyAt(h.stream, e.stream, n - 1, e.stream[n - 1]) && e.stream[n - 1].state == InDoubt
              && e.stream[n - 1].duplicateRisk && e.stream[n - 1].attempt == h.stream[n - 1].attempt))
      && (w1.Durable? && w2.Durable? ==> e == f)
  {
    var n := |h.stream|;
    if n > 0 {
      var r := h.stream[n - 1];
      assert h.stream[n - 1 := Doubted(r)][n - 1 := Retried(r)] == h.stream[n - 1 := Retried(r)];
    }
  }

  /** The divergence file is written exactly when a request is refused for the unresolved one, and says which
      two do not fit. */
  lemma DivergenceExactly(d: Digests, snap: Snapshot, s: seq<Record>, opType: string, env: Envelope,
                          metadata: map<string, string>, was: Option<Divergence>, w1: WriteOutcome, w2: WriteOutcome)
    ensures
      var reply := Prepare(d, snap, s, opType, env, metadata, w1, w2).reply;
      var now := DivergenceAfter(d, s, opType, env, was, w1);
      if reply in {Diverged(UnresolvedMismatch), Unrecorded} && !w1.NotReplaced? then
        && s != []
        && var tail := s[|s| - 1];
           now == Some(Divergence(tail.sequence, tail.opType, opType, tail.requestHash, d.request(env)))
      else now == was
  {}

  /** From the empty journal: a request is prepared, dispatched and committed, and asked for again is answered
      with its result. */
  lemma CommittedRun(d: Digests, snap: Snapshot, env: Envelope, metadata: map<string, string>, result: Outcome)
      returns (actions: seq<Action>, hs: seq<History>)
    requires env.version == VERSION
    ensures IsRun(d, snap, actions, hs) && actions == [
      DoPrepare(env.opType, env, metadata, Durable, Durable), DoTransition(1, 1, InFlight, None, "", Durable),
      DoTransition(1, 1, Committed, Some(result), "", Durable)]
    ensures
      var last := hs[3];
      && |last.stream| == 1 && last.stream[0].state == Committed && last.dispatches == [1]
      && forall w1, w2 :: Prepare(d, snap, last.stream, env.opType, env, metadata, w1, w2) ==
           Effect(last.stream, Replay(last.stream[0], Some(result)))
  {
    actions := [
      DoPrepare(env.opType, env, metadata, Durable, Durable), DoTransition(1, 1, InFlight, None, "", Durable),
      DoTransition(1, 1, Committed, Some(result), "", Durable)];
    var h0 := History([], []);
    var h1 := Act(d, snap, h0, actions[0]);
    var h2 := Act(d, snap, h1, actions[1]);
    var h3 := Act(d, snap, h2, actions[2]);
    hs := [h0, h1, h2, h3];
  }
}
