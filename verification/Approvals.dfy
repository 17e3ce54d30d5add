/** The approval ledger shared by `Start`, `Resume` and `Cancel`: what each request does to it, and
which approvals can be consumed over every run.

Times are clock readings in nanoseconds; 0 is the zero time.  A request reads the clock several times:
when it validates the approval, when it prunes, and once per pending start it looks at. */
module Approvals {
  import opened Durable
  import opened Text

  const MAX_RECORDS := 1024
  const MAX_NONCE := 256
  const MAX_LIFETIME: nat := 30 * 60 * 1_000_000_000

  datatype Approval = Approval(digest: string, approvedAt: nat, expiresAt: nat, nonce: string)

  datatype StartRecord = StartRecord(
    key: string, digest: string, nonce: string, runID: string, createdAt: nat, expiresAt: nat)

  /** A resume or cancel record. */
  datatype RunRecord = RunRecord(digest: string, nonce: string, runID: string, createdAt: nat, expiresAt: nat)

  datatype Ledger = Ledger(starts: seq<StartRecord>, resumes: seq<RunRecord>, cancels: seq<RunRecord>)

  datatype Reason =
    | ApprovalMissing | ActionMismatch | ApprovalInvalid | LifetimeExceeded | ApprovalExpired
    | IdempotencyConflict | NonceReplayed | RunAlreadyActive | AlreadyConsumed | LedgerFull | WriteFailed

  /** `Replayed` and `Accepted` both return a handle; only `Accepted` consumes the approval. */
  datatype Reply = Accepted(runID: string) | Replayed(runID: string) | Refused(reason: Reason)

  /** `consumed` says that a record for the request reached the file. */
  datatype Effect = Effect(ledger: Ledger, consumed: bool, reply: Reply)

  // ---------------------------------------------------------- the approval

  predicate HasControl(s: string) {
    exists i :: 0 <= i < |s| && (s[i] < ' ' || s[i] as int == 0x7f)
  }

  /** The checks of `validateControlApproval` and its two siblings, in order. */
  function ValidateApproval(a: Approval, digest: string, now: nat): (r: (bool, Reason))
    ensures r.0 ==> a.digest == digest && a.nonce != "" && 0 < a.approvedAt <= now < a.expiresAt
    ensures r.0 ==> a.expiresAt - a.approvedAt <= MAX_LIFETIME
  {
    if Trim(a.nonce) == "" then (false, ApprovalMissing)
    else if a.digest != digest then (false, ActionMismatch)
    else if Trim(a.nonce) != a.nonce || |a.nonce| > MAX_NONCE || HasControl(a.nonce) then (false, ApprovalInvalid)
    else if a.approvedAt == 0 || a.expiresAt == 0 || a.approvedAt > now then (false, ApprovalInvalid)
    else if a.expiresAt - a.approvedAt > MAX_LIFETIME then (false, LifetimeExceeded)
    else if a.expiresAt <= now then (false, ApprovalExpired)
    else (true, ApprovalExpired)
  }

  // ------------------------------------------------------- looking at records

  function Prune(s: seq<StartRecord>, now: nat): (r: seq<StartRecord>)
    ensures forall x :: x in r <==> x in s && x.expiresAt > now
    ensures |r| <= |s|
  {
    if s == [] then []
    else
      var init, last := Prune(s[..|s| - 1], now), s[|s| - 1];
      assert s == s[..|s| - 1] + [last];
      if last.expiresAt > now then init + [last] else init
  }

  /** The first record from `i` on that satisfies `p`, or the length. */
  function First<T>(s: seq<T>, p: T -> bool, i: nat): (k: nat)
    requires i <= |s|
    ensures i <= k <= |s| && (forall j :: i <= j < k ==> !p(s[j])) && (k < |s| ==> p(s[k]))
    decreases |s| - i
  {
    if i == |s| || p(s[i]) then i else First(s, p, i + 1)
  }

  /** Where a start with this idempotency key is, or the length. */
  function FindKey(starts: seq<StartRecord>, key: string): nat {
    First(starts, (r: StartRecord) => r.key == key, 0)
  }

  predicate StartsHave(l: Ledger, nonce: string) { exists i :: 0 <= i < |l.starts| && l.starts[i].nonce == nonce }
  predicate ResumesHave(l: Ledger, nonce: string) { exists i :: 0 <= i < |l.resumes| && l.resumes[i].nonce == nonce }
  predicate CancelsHave(l: Ledger, nonce: string) { exists i :: 0 <= i < |l.cancels| && l.cancels[i].nonce == nonce }

  predicate HasNonce(l: Ledger, nonce: string) {
    StartsHave(l, nonce) || ResumesHave(l, nonce) || CancelsHave(l, nonce)
  }

  // ----------------------------------------------------------------- requests

  datatype StartRequest = StartRequest(key: string, digest: string, approval: Approval)
  datatype RunRequest = RunRequest(runID: string, digest: string, approval: Approval)

  /** What a request sees besides the ledger: its clock readings in order, the runs that have a final
      record, whether `active.json` names a running run, the fresh run ID, and the fate of the write. */
  datatype World = World(clock: nat -> nat, finals: set<string>, activeRunning: bool, freshID: string, w: WriteOutcome)

  ghost predicate Monotone(clock: nat -> nat) {
    forall i, j :: i <= j ==> clock(i) <= clock(j)
  }

  function Saved(before: Ledger, after: Ledger, runID: string, w: WriteOutcome): Effect {
    Effect(if w.NotReplaced? then before else after, !w.NotReplaced?,
           if w.Durable? then Accepted(runID) else Refused(WriteFailed))
  }

  /** A start that is still pending: unexpired when looked at, and without a final record. */
  predicate Pending(r: StartRecord, now: nat, finals: set<string>) {
    r.expiresAt > now && r.runID !in finals
  }

  predicate AnyPending(starts: seq<StartRecord>, x: World) {
    exists i :: 0 <= i < |starts| && Pending(starts[i], x.clock(2 + i), x.finals)
  }

  function StartStep(l: Ledger, q: StartRequest, x: World): Effect {
    var (valid, reason) := ValidateApproval(q.approval, q.digest, x.clock(0));
    if !valid then Effect(l, false, Refused(reason))
    else
      var starts := Prune(l.starts, x.clock(1));
      var k := FindKey(starts, q.key);
      if k < |starts| then
        Effect(l, false,
               if starts[k].digest != q.digest then Refused(IdempotencyConflict) else Replayed(starts[k].runID))
      else if x.activeRunning then Effect(l, false, Refused(RunAlreadyActive))
      else if HasNonce(l.(starts := starts), q.approval.nonce) then Effect(l, false, Refused(NonceReplayed))
      else if AnyPending(starts, x) then Effect(l, false, Refused(RunAlreadyActive))
      else if |starts| + 1 > MAX_RECORDS then Effect(l, false, Refused(LedgerFull))
      else
        var created := x.clock(2 + |starts|);
        var record := StartRecord(q.key, q.digest, q.approval.nonce, x.freshID, created, q.approval.expiresAt);
        Saved(l, l.(starts := starts + [record]), x.freshID, x.w)
  }

  /** The scan shared by resume and cancel: `own` is the section the request would be added to. */
  function RunLookup(elsewhere: bool, own: seq<RunRecord>, q: RunRequest): (bool, Reply) {
    if elsewhere then (true, Refused(NonceReplayed))
    else
      var k := First(own, (r: RunRecord) => r.nonce == q.approval.nonce || r.runID == q.runID, 0);
      if k == |own| then (false, Refused(NonceReplayed))
      else if own[k].nonce != q.approval.nonce then (true, Refused(AlreadyConsumed))
      else if own[k].runID == q.runID && own[k].digest == q.digest then (true, Replayed(own[k].runID))
      else (true, Refused(NonceReplayed))
  }

  function ResumeStep(l: Ledger, q: RunRequest, x: World): Effect {
    var (valid, reason) := ValidateApproval(q.approval, q.digest, x.clock(0));
    var (found, reply) := RunLookup(StartsHave(l, q.approval.nonce) || CancelsHave(l, q.approval.nonce), l.resumes, q);
    if !valid then Effect(l, false, Refused(reason))
    else if found then Effect(l, false, reply)
    else if |l.resumes| >= MAX_RECORDS then Effect(l, false, Refused(LedgerFull))
    else
      var record := RunRecord(q.digest, q.approval.nonce, q.runID, x.clock(1), q.approval.expiresAt);
      Saved(l, l.(resumes := l.resumes + [record]), q.runID, x.w)
  }

  function CancelStep(l: Ledger, q: RunRequest, x: World): Effect {
    var (valid, reason) := ValidateApproval(q.approval, q.digest, x.clock(0));
    var (found, reply) := RunLookup(StartsHave(l, q.approval.nonce) || ResumesHave(l, q.approval.nonce), l.cancels, q);
    if !valid then Effect(l, false, Refused(reason))
    else if found then Effect(l, false, reply)
    else if |l.cancels| >= MAX_RECORDS then Effect(l, false, Refused(LedgerFull))
    else
      var record := RunRecord(q.digest, q.approval.nonce, q.runID, x.clock(1), q.approval.expiresAt);
      Saved(l, l.(cancels := l.cancels + [record]), q.runID, x.w)
  }

  // --------------------------------------------------------------- the system

  datatype Request = Start(start: StartRequest) | Resume(run: RunRequest) | Cancel(run: RunRequest)

  function Step(l: Ledger, q: Request, x: World): Effect {
    match q
    case Start(s) => StartStep(l, s, x)
    case Resume(r) => ResumeStep(l, r, x)
    case Cancel(r) => CancelStep(l, r, x)
  }

  function ApprovalOf(q: Request): Approval {
    match q case Start(s) => s.approval case Resume(r) => r.approval case Cancel(r) => r.approval
  }

  /** An approval written into the ledger: validated at one reading, checked against the ledger at another. */
  datatype Consumption = Consumption(approval: Approval, validated: nat, checked: nat)

  /** `now` is the latest clock reading of any request so far that used the ledger. */
  datatype System = System(ledger: Ledger, now: nat, finals: set<string>, consumed: seq<Consumption>)

  function Initial(): System { System(Ledger([], [], []), 0, {}, []) }

  function CheckedAt(q: Request, x: World): nat { x.clock(1) }

  function LastReading(l: Ledger, q: Request, x: World): nat {
    match q case Start(_) => x.clock(2 + |Prune(l.starts, x.clock(1))|) case _ => x.clock(1)
  }

  /** Requests hold the ledger lock from their second clock reading on; validation may be earlier.
      A final record, once there, stays. */
  ghost predicate Next(s: System, t: System, q: Request, x: World) {
    && Monotone(x.clock) && s.now <= x.clock(1) && s.finals <= x.finals
    && t.finals == x.finals
    && t.now == LastReading(s.ledger, q, x)
    && t.ledger == Step(s.ledger, q, x).ledger
    && t.consumed == if Step(s.ledger, q, x).consumed
                     then s.consumed + [Consumption(ApprovalOf(q), x.clock(0), CheckedAt(q, x))] else s.consumed
  }

  // --------------------------------------------------------------- invariants

  ghost predicate NoncesDistinct(l: Ledger) {
    && (forall i, j :: 0 <= i < j < |l.starts| ==> l.starts[i].nonce != l.starts[j].nonce)
    && (forall i, j :: 0 <= i < j < |l.resumes| ==> l.resumes[i].nonce != l.resumes[j].nonce)
    && (forall i, j :: 0 <= i < j < |l.cancels| ==> l.cancels[i].nonce != l.cancels[j].nonce)
    && (forall n :: StartsHave(l, n) ==> !ResumesHave(l, n) && !CancelsHave(l, n))
    && (forall n :: ResumesHave(l, n) ==> !CancelsHave(l, n))
  }

  ghost predicate OnePerRun(s: seq<RunRecord>) {
    forall i, j :: 0 <= i < j < |s| ==> s[i].runID != s[j].runID
  }

  ghost predicate OnePending(starts: seq<StartRecord>, now: nat, finals: set<string>) {
    forall i, j :: 0 <= i < j < |starts| ==> !(Pending(starts[i], now, finals) && Pending(starts[j], now, finals))
  }

  ghost predicate KeysDistinct(starts: seq<StartRecord>) {
    forall i, j :: 0 <= i < j < |starts| ==> starts[i].key != starts[j].key
  }

  ghost predicate LedgerOk(l: Ledger) {
    && NoncesDistinct(l) && KeysDistinct(l.starts) && OnePerRun(l.resumes) && OnePerRun(l.cancels)
    && |l.starts| <= MAX_RECORDS && |l.resumes| <= MAX_RECORDS && |l.cancels| <= MAX_RECORDS
  }

  /** The start was accepted under the approval. */
  predicate StartOf(r: StartRecord, a: Approval) { r.nonce == a.nonce && r.expiresAt == a.expiresAt }

  /** What was consumed is still in the ledger, or has been dropped after it expired. */
  ghost predicate Remembered(l: Ledger, c: Consumption, now: nat) {
    || ResumesHave(l, c.approval.nonce) || CancelsHave(l, c.approval.nonce)
    || (exists i :: 0 <= i < |l.starts| && StartOf(l.starts[i], c.approval))
    || c.approval.expiresAt <= now
  }

  /** A nonce is never consumed again while an earlier approval that used it is unexpired. */
  ghost predicate NoEarlyReuse(cs: seq<Consumption>) {
    forall i, j :: 0 <= i < j < |cs| && cs[i].approval.nonce == cs[j].approval.nonce
      ==> cs[i].approval.expiresAt <= cs[j].checked
  }

  /** The same for one more consumption. */
  ghost predicate NoReuse(cs: seq<Consumption>, c: Consumption) {
    forall k :: 0 <= k < |cs| && cs[k].approval.nonce == c.approval.nonce ==> cs[k].approval.expiresAt <= c.checked
  }

  /** What the invariant says of the approvals consumed so far. */
  ghost predicate ConsumedOk(l: Ledger, cs: seq<Consumption>, now: nat) {
    && (forall k :: 0 <= k < |cs| ==> Remembered(l, cs[k], now))
    && (forall k :: 0 <= k < |cs| ==> cs[k].validated < cs[k].approval.expiresAt)
    && NoEarlyReuse(cs)
  }

  ghost predicate Inv(s: System) {
    LedgerOk(s.ledger) && OnePending(s.ledger.starts, s.now, s.finals) && ConsumedOk(s.ledger, s.consumed, s.now)
  }

  lemma PruneKeepsDistinct(s: seq<StartRecord>, now: nat)
    requires forall i, j :: 0 <= i < j < |s| ==> s[i].nonce != s[j].nonce
    requires KeysDistinct(s)
    ensures var r := Prune(s, now); forall i, j :: 0 <= i < j < |r| ==> r[i].nonce != r[j].nonce
    ensures KeysDistinct(Prune(s, now))
  {
    if s != [] {
      var init := Prune(s[..|s| - 1], now);
      PruneKeepsDistinct(s[..|s| - 1], now);
      forall i | 0 <= i < |init| ensures init[i].nonce != s[|s| - 1].nonce && init[i].key != s[|s| - 1].key {
        assert init[i] in s[..|s| - 1];
      }
    }
  }

  lemma PrunedLedger(l: Ledger, now: nat)
    requires LedgerOk(l)
    ensures LedgerOk(l.(starts := Prune(l.starts, now)))
    ensures forall n :: StartsHave(l.(starts := Prune(l.starts, now)), n) ==> StartsHave(l, n)
  {
    PruneKeepsDistinct(l.starts, now);
    var p := l.(starts := Prune(l.starts, now));
    forall n | StartsHave(p, n) ensures StartsHave(l, n) {
      var i :| 0 <= i < |p.starts| && p.starts[i].nonce == n;
      assert p.starts[i] in l.starts;
    }
    assert forall n :: ResumesHave(p, n) == ResumesHave(l, n) && CancelsHave(p, n) == CancelsHave(l, n);
  }

  /** Adding a record with a nonce not yet in the ledger keeps it well formed. */
  lemma AddStart(l: Ledger, r: StartRecord)
    requires LedgerOk(l) && !HasNonce(l, r.nonce) && |l.starts| < MAX_RECORDS
    requires forall i :: 0 <= i < |l.starts| ==> l.starts[i].key != r.key
    ensures LedgerOk(l.(starts := l.starts + [r]))
  {
    var m := l.(starts := l.starts + [r]);
    forall n ensures StartsHave(m, n) <==> StartsHave(l, n) || n == r.nonce {
      if StartsHave(l, n) { var i :| 0 <= i < |l.starts| && l.starts[i].nonce == n; assert m.starts[i].nonce == n; }
      assert m.starts[|l.starts|] == r;
    }
    assert forall n :: ResumesHave(m, n) == ResumesHave(l, n) && CancelsHave(m, n) == CancelsHave(l, n);
  }

  lemma AddResume(l: Ledger, r: RunRecord)
    requires LedgerOk(l) && !HasNonce(l, r.nonce) && |l.resumes| < MAX_RECORDS
    requires forall i :: 0 <= i < |l.resumes| ==> l.resumes[i].runID != r.runID
    ensures LedgerOk(l.(resumes := l.resumes + [r]))
  {
    var m := l.(resumes := l.resumes + [r]);
    forall n ensures ResumesHave(m, n) <==> ResumesHave(l, n) || n == r.nonce {
      if ResumesHave(l, n) { var i :| 0 <= i < |l.resumes| && l.resumes[i].nonce == n; assert m.resumes[i].nonce == n; }
      assert m.resumes[|l.resumes|] == r;
    }
    assert forall n :: StartsHave(m, n) == StartsHave(l, n) && CancelsHave(m, n) == CancelsHave(l, n);
  }

  lemma AddCancel(l: Ledger, r: RunRecord)
    requires LedgerOk(l) && !HasNonce(l, r.nonce) && |l.cancels| < MAX_RECORDS
    requires forall i :: 0 <= i < |l.cancels| ==> l.cancels[i].runID != r.runID
    ensures LedgerOk(l.(cancels := l.cancels + [r]))
  {
    var m := l.(cancels := l.cancels + [r]);
    forall n ensures CancelsHave(m, n) <==> CancelsHave(l, n) || n == r.nonce {
      if CancelsHave(l, n) { var i :| 0 <= i < |l.cancels| && l.cancels[i].nonce == n; assert m.cancels[i].nonce == n; }
      assert m.cancels[|l.cancels|] == r;
    }
    assert forall n :: StartsHave(m, n) == StartsHave(l, n) && ResumesHave(m, n) == ResumesHave(l, n);
  }

  /** What a lookup that finds nothing has checked. */
  lemma NothingFound(elsewhere: bool, own: seq<RunRecord>, q: RunRequest)
    requires !RunLookup(elsewhere, own, q).0
    ensures !elsewhere
    ensures forall i :: 0 <= i < |own| ==> own[i].nonce != q.approval.nonce && own[i].runID != q.runID
  {
    var p := (r: RunRecord) => r.nonce == q.approval.nonce || r.runID == q.runID;
    assert forall i :: 0 <= i < |own| ==> !p(own[i]);
  }

  lemma KeyNotFound(starts: seq<StartRecord>, key: string)
    requires FindKey(starts, key) == |starts|
    ensures forall i :: 0 <= i < |starts| ==> starts[i].key != key
  {
    var p := (r: StartRecord) => r.key == key;
    assert forall i :: 0 <= i < |starts| ==> !p(starts[i]);
  }

  /** A consumption finds its nonce nowhere in the pruned ledger, and puts it in. */
  lemma AcceptedIsFresh(l: Ledger, q: Request, x: World)
    requires LedgerOk(l) && Step(l, q, x).consumed
    ensures var a := ApprovalOf(q);
      var seen := if q.Start? then l.(starts := Prune(l.starts, x.clock(1))) else l;
      && !HasNonce(seen, a.nonce) && x.clock(0) < a.expiresAt
      && LedgerOk(Step(l, q, x).ledger)
  {
    match q
    case Start(s) => AcceptedStartIsFresh(l, s, x);
    case Resume(r) => AcceptedResumeIsFresh(l, r, x);
    case Cancel(r) => AcceptedCancelIsFresh(l, r, x);
  }

  lemma AcceptedStartIsFresh(l: Ledger, s: StartRequest, x: World)
    requires LedgerOk(l) && StartStep(l, s, x).consumed
    ensures !HasNonce(l.(starts := Prune(l.starts, x.clock(1))), s.approval.nonce)
    ensures x.clock(0) < s.approval.expiresAt && LedgerOk(StartStep(l, s, x).ledger)
  {
    PrunedLedger(l, x.clock(1));
    var p := l.(starts := Prune(l.starts, x.clock(1)));
    KeyNotFound(p.starts, s.key);
    var created := x.clock(2 + |p.starts|);
    AddStart(p, StartRecord(s.key, s.digest, s.approval.nonce, x.freshID, created, s.approval.expiresAt));
  }

  lemma AcceptedResumeIsFresh(l: Ledger, r: RunRequest, x: World)
    requires LedgerOk(l) && ResumeStep(l, r, x).consumed
    ensures !HasNonce(l, r.approval.nonce) && x.clock(0) < r.approval.expiresAt && LedgerOk(ResumeStep(l, r, x).ledger)
  {
    NothingFound(StartsHave(l, r.approval.nonce) || CancelsHave(l, r.approval.nonce), l.resumes, r);
    AddResume(l, RunRecord(r.digest, r.approval.nonce, r.runID, x.clock(1), r.approval.expiresAt));
  }

  lemma AcceptedCancelIsFresh(l: Ledger, r: RunRequest, x: World)
    requires LedgerOk(l) && CancelStep(l, r, x).consumed
    ensures !HasNonce(l, r.approval.nonce) && x.clock(0) < r.approval.expiresAt && LedgerOk(CancelStep(l, r, x).ledger)
  {
    NothingFound(StartsHave(l, r.approval.nonce) || ResumesHave(l, r.approval.nonce), l.cancels, r);
    AddCancel(l, RunRecord(r.digest, r.approval.nonce, r.runID, x.clock(1), r.approval.expiresAt));
  }

  /** Everything remembered before a step is remembered after it, and so is what the step consumed. */
  lemma StillRemembered(l: Ledger, q: Request, x: World, c: Consumption, before: nat, after: nat)
    requires Remembered(l, c, before) && before <= x.clock(1) <= after
    ensures Remembered(Step(l, q, x).ledger, c, after)
  {
    if Step(l, q, x).consumed {
      RunsStay(l, q, x, c.approval.nonce);
      if i :| 0 <= i < |l.starts| && StartOf(l.starts[i], c.approval) {
        if l.starts[i].expiresAt > x.clock(1) { StartStays(l, q, x, i); }
      }
    }
  }

  lemma RunsStay(l: Ledger, q: Request, x: World, n: string)
    requires Step(l, q, x).consumed
    ensures ResumesHave(l, n) ==> ResumesHave(Step(l, q, x).ledger, n)
    ensures CancelsHave(l, n) ==> CancelsHave(Step(l, q, x).ledger, n)
  {
    var m := Step(l, q, x).ledger;
    assert l.resumes <= m.resumes && l.cancels <= m.cancels;
    if i :| 0 <= i < |l.resumes| && l.resumes[i].nonce == n { assert m.resumes[i].nonce == n; }
    if i :| 0 <= i < |l.cancels| && l.cancels[i].nonce == n { assert m.cancels[i].nonce == n; }
  }

  lemma StartStays(l: Ledger, q: Request, x: World, i: nat)
    requires i < |l.starts| && l.starts[i].expiresAt > x.clock(1)
    ensures var m := Step(l, q, x).ledger; exists k :: 0 <= k < |m.starts| && m.starts[k] == l.starts[i]
  {
    var m := Step(l, q, x).ledger;
    var r := l.starts[i];
    assert r in Prune(l.starts, x.clock(1));
    assert r in m.starts;
  }

  lemma NewlyRemembered(l: Ledger, q: Request, x: World, c: Consumption, now: nat)
    requires Step(l, q, x).consumed && c.approval == ApprovalOf(q)
    ensures Remembered(Step(l, q, x).ledger, c, now)
  {
    var m := Step(l, q, x).ledger;
    match q
    case Start(_) => assert m.starts[|m.starts| - 1].nonce == c.approval.nonce;
    case Resume(_) => assert m.resumes[|m.resumes| - 1].nonce == c.approval.nonce;
    case Cancel(_) => assert m.cancels[|m.cancels| - 1].nonce == c.approval.nonce;
  }

  lemma PendingStaysUnique(s: System, t: System, q: Request, x: World)
    requires Inv(s) && Next(s, t, q, x)
    ensures OnePending(t.ledger.starts, t.now, t.finals)
  {
    StartsAfter(s.ledger, q, x);
    if q.Start? && Step(s.ledger, q, x).consumed {
      var p := Prune(s.ledger.starts, x.clock(1));
      NonePendingLater(p, x, t.now);
      OnlyNewPending(p, t.ledger.starts, t.now, t.finals);
    } else {
      PendingFades(s.ledger.starts, s.now, s.finals, t.now, t.finals);
    }
  }

  /** Only an accepted start changes the starts: it prunes them, finds none pending, and adds one. */
  lemma StartsAfter(l: Ledger, q: Request, x: World)
    ensures
      var p, m := Prune(l.starts, x.clock(1)), Step(l, q, x).ledger.starts;
      if q.Start? && Step(l, q, x).consumed then |m| == |p| + 1 && m[..|p|] == p && !AnyPending(p, x) else m == l.starts
  {}

  lemma NonePendingLater(p: seq<StartRecord>, x: World, now: nat)
    requires !AnyPending(p, x) && Monotone(x.clock) && x.clock(2 + |p|) <= now
    ensures forall i :: 0 <= i < |p| ==> !Pending(p[i], now, x.finals)
  {
    forall i | 0 <= i < |p| ensures !Pending(p[i], now, x.finals) {
      assert !Pending(p[i], x.clock(2 + i), x.finals);
      assert x.clock(2 + i) <= x.clock(2 + |p|);
    }
  }

  lemma OnlyNewPending(p: seq<StartRecord>, m: seq<StartRecord>, now: nat, finals: set<string>)
    requires |m| == |p| + 1 && m[..|p|] == p && forall i :: 0 <= i < |p| ==> !Pending(p[i], now, finals)
    ensures OnePending(m, now, finals)
  {
    assert forall i :: 0 <= i < |p| ==> m[i] == p[i];
  }

  lemma PendingFades(starts: seq<StartRecord>, now: nat, finals: set<string>, later: nat, more: set<string>)
    requires OnePending(starts, now, finals) && now <= later && finals <= more
    ensures OnePending(starts, later, more)
  {
    assert forall r: StartRecord :: Pending(r, later, more) ==> Pending(r, now, finals);
  }

  lemma StepKeepsInv(s: System, t: System, q: Request, x: World)
    requires Inv(s) && Next(s, t, q, x)
    ensures Inv(t)
  {
    PendingStaysUnique(s, t, q, x);
    ConsumedStays(s, t, q, x);
    if Step(s.ledger, q, x).consumed {
      var c := Consumption(ApprovalOf(q), x.clock(0), CheckedAt(q, x));
      AcceptedIsFresh(s.ledger, q, x);
      NewlyRemembered(s.ledger, q, x, c, t.now);
      NewIsNoReuse(s, q, x, c);
      ConsumedAppends(t.ledger, s.consumed, c, t.now);
    }
  }

  lemma ConsumedAppends(l: Ledger, cs: seq<Consumption>, c: Consumption, now: nat)
    requires ConsumedOk(l, cs, now) && Remembered(l, c, now) && c.validated < c.approval.expiresAt && NoReuse(cs, c)
    ensures ConsumedOk(l, cs + [c], now)
  {}

  lemma NewIsNoReuse(s: System, q: Request, x: World, c: Consumption)
    requires Inv(s) && s.now <= x.clock(1) && Step(s.ledger, q, x).consumed
    requires c.approval == ApprovalOf(q) && c.checked == x.clock(1)
    ensures NoReuse(s.consumed, c)
  {
    forall k | 0 <= k < |s.consumed| && s.consumed[k].approval.nonce == c.approval.nonce
      ensures s.consumed[k].approval.expiresAt <= c.checked
    {
      ReuseOnlyAfterExpiry(s.ledger, q, x, s.consumed[k], s.now);
    }
  }

  lemma ConsumedStays(s: System, t: System, q: Request, x: World)
    requires Inv(s) && Next(s, t, q, x)
    ensures ConsumedOk(t.ledger, s.consumed, t.now)
  {
    assert x.clock(1) <= t.now;
    forall k | 0 <= k < |s.consumed| ensures Remembered(t.ledger, s.consumed[k], t.now) {
      StillRemembered(s.ledger, q, x, s.consumed[k], s.now, t.now);
    }
  }

  lemma ReuseOnlyAfterExpiry(l: Ledger, q: Request, x: World, c: Consumption, now: nat)
    requires LedgerOk(l) && Remembered(l, c, now) && now <= x.clock(1)
    requires Step(l, q, x).consumed && c.approval.nonce == ApprovalOf(q).nonce
    ensures c.approval.expiresAt <= x.clock(1)
  {
    var seen := if q.Start? then l.(starts := Prune(l.starts, x.clock(1))) else l;
    if i :| 0 <= i < |l.starts| && StartOf(l.starts[i], c.approval) {
      if l.starts[i].expiresAt > x.clock(1) {
        assert l.starts[i] in seen.starts;
        assert StartsHave(seen, c.approval.nonce);
      }
    }
    AcceptedIsFresh(l, q, x);
  }

  ghost predicate IsRun(ss: seq<System>, qs: seq<(Request, World)>) {
    && |ss| == |qs| + 1 && ss[0] == Initial()
    && forall k :: 0 <= k < |qs| ==> Next(ss[k], ss[k + 1], qs[k].0, qs[k].1)
  }

  /** In every run of starts, resumes and cancels: nonces are distinct across the ledger, a run is
      resumed and cancelled at most once, sections are bounded, one start at most is pending, and no
      nonce is consumed again before the approval that used it has expired. */
  lemma {:induction false} EveryRunKeepsInv(ss: seq<System>, qs: seq<(Request, World)>, k: nat)
    requires IsRun(ss, qs) && k < |ss|
    ensures Inv(ss[k])
  {
    if k > 0 {
      EveryRunKeepsInv(ss, qs, k - 1);
      StepKeepsInv(ss[k - 1], ss[k], qs[k - 1].0, qs[k - 1].1);
    }
  }

  /** The same approval is consumed twice only by a request that was validated before it expired and
      looked at the ledger after. */
  lemma TwiceOnlyAcrossExpiry(ss: seq<System>, qs: seq<(Request, World)>, k: nat, i: nat, j: nat)
    requires IsRun(ss, qs) && k < |ss| && i < j < |ss[k].consumed|
    requires ss[k].consumed[i].approval == ss[k].consumed[j].approval
    ensures var c := ss[k].consumed[j]; c.validated < c.approval.expiresAt <= c.checked
  {
    EveryRunKeepsInv(ss, qs, k);
  }

  lemma {:induction false} CheckedWhenValidated(ss: seq<System>, qs: seq<(Request, World)>, k: nat)
    requires IsRun(ss, qs) && k < |ss|
    requires forall n :: 0 <= n < |qs| ==> qs[n].1.clock(0) == qs[n].1.clock(1)
    ensures forall i :: 0 <= i < |ss[k].consumed| ==> ss[k].consumed[i].validated == ss[k].consumed[i].checked
  {
    if k > 0 {
      CheckedWhenValidated(ss, qs, k - 1);
      assert Next(ss[k - 1], ss[k], qs[k - 1].0, qs[k - 1].1);
    }
  }

  /** If every request validates and checks at one clock reading, no approval is ever consumed twice. */
  lemma OneReadingConsumesOnce(ss: seq<System>, qs: seq<(Request, World)>, k: nat, i: nat, j: nat)
    requires IsRun(ss, qs) && k < |ss| && i < j < |ss[k].consumed|
    requires forall n :: 0 <= n < |qs| ==> qs[n].1.clock(0) == qs[n].1.clock(1)
    ensures ss[k].consumed[i].approval != ss[k].consumed[j].approval
  {
    CheckedWhenValidated(ss, qs, k);
    if ss[k].consumed[i].approval == ss[k].consumed[j].approval { TwiceOnlyAcrossExpiry(ss, qs, k, i, j); }
  }
}
