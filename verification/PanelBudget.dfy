/** The panel budget: cumulative work and live concurrency, reserved and spent in one durable ledger. */
module PanelBudget {
  import opened Durable
  import opened Sums

  datatype Status = Reserved | Running | Completed | Cancelled

  datatype Reservation = Reservation(
    digest: string, members: int, work: int,
    started: int, completed: int, cancelled: int,
    status: Status, generation: nat)

  datatype Ledger = Ledger(
    workLimit: int, workReserved: int, workConsumed: int,
    liveLimit: int, liveReserved: int, liveInUse: int,
    generation: nat, reservations: map<string, Reservation>)

  datatype Error =
    | PanelMissing | StaleFence | DefinitionChanged | InvalidRequirement
    | LiveConcurrencyExhausted | CumulativeWorkExhausted
    | AllMembersStarted | NoRunningMember | NoUnstartedMember | WriteFailed

  datatype Result<+T> = Ok(value: T) | Err(error: Error)

  datatype MemberOp = Start | Complete | Cancel

  datatype Call =
    | Admit(id: string, digest: string, members: int, work: int)
    | Member(op: MemberOp, id: string, fence: nat)

  // ------------------------------------------------------- the ledger's steps

  function FreshPanel(digest: string, members: int, work: int, generation: nat): Reservation {
    Reservation(digest, members, work, 0, 0, 0, Reserved, generation)
  }

  function AdmitStep(l: Ledger, id: string, digest: string, members: int, work: int): Result<Ledger> {
    if id in l.reservations then
      if l.reservations[id].digest != digest then Err(DefinitionChanged) else Ok(l)
    else if members <= 0 || work < 0 then Err(InvalidRequirement)
    else if l.liveReserved + l.liveInUse + members > l.liveLimit then Err(LiveConcurrencyExhausted)
    else if l.workReserved + l.workConsumed + work > l.workLimit then Err(CumulativeWorkExhausted)
    else Ok(l.(generation := l.generation + 1,
               liveReserved := l.liveReserved + members,
               workReserved := l.workReserved + work,
               reservations := l.reservations[id := FreshPanel(digest, members, work, l.generation + 1)]))
  }

  /** One member operation on the panel `r` of `l`: the ledger's counters and the panel after it. */
  function MemberEffect(l: Ledger, r: Reservation, op: MemberOp): Result<(Ledger, Reservation)> {
    match op
    case Start =>
      if r.started >= r.members - r.cancelled then Err(AllMembersStarted)
      else if l.workReserved <= 0 then Err(CumulativeWorkExhausted)
      else Ok((l.(liveReserved := l.liveReserved - 1, liveInUse := l.liveInUse + 1,
                  workReserved := l.workReserved - 1, workConsumed := l.workConsumed + 1),
               r.(started := r.started + 1, status := Running)))
    case Complete =>
      if r.completed >= r.started then Err(NoRunningMember)
      else Ok((l.(liveInUse := l.liveInUse - 1),
               r.(completed := r.completed + 1,
                  status := if r.completed + 1 + r.cancelled == r.members then Completed else r.status)))
    case Cancel =>
      if r.started + r.cancelled >= r.members then Err(NoUnstartedMember)
      else Ok((l.(liveReserved := l.liveReserved - 1, workReserved := l.workReserved - 1),
               r.(cancelled := r.cancelled + 1,
                  status := if r.completed + r.cancelled + 1 == r.members then Status.Cancelled else r.status)))
  }

  function MemberStep(l: Ledger, op: MemberOp, id: string, fence: nat): Result<Ledger> {
    if id !in l.reservations then Err(PanelMissing)
    else if l.reservations[id].generation != fence then Err(StaleFence)
    else match MemberEffect(l, l.reservations[id], op)
      case Err(e) => Err(e)
      case Ok(p) => Ok(p.0.(reservations := l.reservations[id := p.1], generation := l.generation + 1))
  }

  function Step(l: Ledger, c: Call): Result<Ledger> {
    match c
    case Admit(id, digest, members, work) => AdmitStep(l, id, digest, members, work)
    case Member(op, id, fence) => MemberStep(l, op, id, fence)
  }

  /** The ledger on disk after a call. */
  function After(l: Ledger, c: Call, w: WriteOutcome): Ledger {
    match Step(l, c) case Ok(next) => if w.NotReplaced? then l else next case Err(_) => l
  }

  function Run(l: Ledger, calls: seq<(Call, WriteOutcome)>): Ledger {
    if calls == [] then l
    else After(Run(l, calls[..|calls| - 1]), calls[|calls| - 1].0, calls[|calls| - 1].1)
  }

  function Initial(workLimit: int, liveLimit: int): Ledger {
    Ledger(workLimit, 0, 0, liveLimit, 0, 0, 0, map[])
  }

  // --------------------------------------------------------- the store itself

  class PanelStore {
    var file: Ledger

    constructor (workLimit: int, liveLimit: int)
      ensures file == Initial(workLimit, liveLimit)
    {
      file := Initial(workLimit, liveLimit);
    }

    method Write(l: Ledger, w: WriteOutcome) returns (ok: bool)
      modifies this
      ensures file == (if w.NotReplaced? then old(file) else l) && ok == w.Durable?
    {
      if !w.NotReplaced? { file := l; }
      ok := w.Durable?;
    }

    method AdmitPanel(id: string, digest: string, members: int, work: int, w: WriteOutcome)
        returns (r: Result<Reservation>)
      modifies this
      ensures file == After(old(file), Admit(id, digest, members, work), w)
      ensures r.Ok? ==> id in file.reservations && file.reservations[id] == r.value && r.value.digest == digest
      ensures match Step(old(file), Admit(id, digest, members, work))
        case Err(e) => r == Err(e)
        case Ok(_) => if id in old(file).reservations || w.Durable? then r.Ok? else r == Err(WriteFailed)
    {
      var l := file;
      if id in l.reservations {
        var prior := l.reservations[id];
        if prior.digest != digest { return Err(DefinitionChanged); }
        return Ok(prior);
      }
      if members <= 0 || work < 0 { return Err(InvalidRequirement); }
      if l.liveReserved + l.liveInUse + members > l.liveLimit { return Err(LiveConcurrencyExhausted); }
      if l.workReserved + l.workConsumed + work > l.workLimit { return Err(CumulativeWorkExhausted); }
      l := l.(generation := l.generation + 1);
      var res := Reservation(digest, members, work, 0, 0, 0, Reserved, l.generation);
      l := l.(reservations := l.reservations[id := res]);
      l := l.(liveReserved := l.liveReserved + members);
      l := l.(workReserved := l.workReserved + work);
      var ok := Write(l, w);
      r := if ok then Ok(res) else Err(WriteFailed);
    }

    /** The three member operations share the fence check and the write-back. */
    method UpdatePanel(op: MemberOp, id: string, fence: nat, w: WriteOutcome) returns (error: Result<()>)
      modifies this
      ensures file == After(old(file), Member(op, id, fence), w)
      ensures error == match MemberStep(old(file), op, id, fence)
        case Err(e) => Err(e)
        case Ok(_) => if w.Durable? then Ok(()) else Err(WriteFailed)
    {
      var l := file;
      if id !in l.reservations { return Err(PanelMissing); }
      var r := l.reservations[id];
      if r.generation != fence { return Err(StaleFence); }
      match op {
        case Start =>
          if r.started >= r.members - r.cancelled { return Err(AllMembersStarted); }
          r := r.(started := r.started + 1, status := Running);
          l := l.(liveReserved := l.liveReserved - 1, liveInUse := l.liveInUse + 1);
          if l.workReserved <= 0 { return Err(CumulativeWorkExhausted); }
          l := l.(workReserved := l.workReserved - 1, workConsumed := l.workConsumed + 1);
        case Complete =>
          if r.completed >= r.started { return Err(NoRunningMember); }
          r := r.(completed := r.completed + 1);
          l := l.(liveInUse := l.liveInUse - 1);
          if r.completed + r.cancelled == r.members { r := r.(status := Completed); }
        case Cancel =>
          if r.started + r.cancelled >= r.members { return Err(NoUnstartedMember); }
          r := r.(cancelled := r.cancelled + 1);
          l := l.(liveReserved := l.liveReserved - 1, workReserved := l.workReserved - 1);
          if r.completed + r.cancelled == r.members { r := r.(status := Status.Cancelled); }
      }
      l := l.(reservations := l.reservations[id := r]);
      l := l.(generation := l.generation + 1);
      var ok := Write(l, w);
      error := if ok then Ok(()) else Err(WriteFailed);
    }
  }

  // -------------------------------------------------------------- conservation

  function Unstarted(r: Reservation): int { r.members - r.started - r.cancelled }
  function Live(r: Reservation): int { r.started - r.completed }
  function Spent(r: Reservation): int { r.started }
  function WorkLeft(r: Reservation): int { r.work - r.started - r.cancelled }

  predicate Finished(r: Reservation) { r.completed + r.cancelled == r.members }

  predicate ValidPanel(r: Reservation) {
    && 0 < r.members && 0 <= r.work && 0 <= r.cancelled
    && 0 <= r.completed <= r.started <= r.members - r.cancelled
    && (Finished(r) <==> r.status in {Completed, Status.Cancelled})
    && (r.status == Reserved ==> r.started == 0) && (r.status == Running ==> r.started > 0)
  }

  ghost predicate Conserved(l: Ledger) {
    PanelsValid(l.reservations) && CountersMatch(l) && WithinLimits(l)
  }

  lemma TotalsUpdate(m: map<string, Reservation>, k: string, r: Reservation)
    ensures
      var none := r.(members := 0, work := 0, started := 0, completed := 0, cancelled := 0);
      var prior := if k in m then m[k] else none;
      && Total(m[k := r], Unstarted) == Total(m, Unstarted) + Unstarted(r) - Unstarted(prior)
      && Total(m[k := r], Live) == Total(m, Live) + Live(r) - Live(prior)
      && Total(m[k := r], Spent) == Total(m, Spent) + Spent(r) - Spent(prior)
      && Total(m[k := r], WorkLeft) == Total(m, WorkLeft) + WorkLeft(r) - WorkLeft(prior)
  {
    TotalUpdate(m, Unstarted, k, r);
    TotalUpdate(m, Live, k, r);
    TotalUpdate(m, Spent, k, r);
    TotalUpdate(m, WorkLeft, k, r);
  }

  ghost predicate CountersMatch(l: Ledger) {
    && l.liveReserved == Total(l.reservations, Unstarted)
    && l.liveInUse == Total(l.reservations, Live)
    && l.workConsumed == Total(l.reservations, Spent)
    && l.workReserved == Total(l.reservations, WorkLeft)
  }

  predicate WithinLimits(l: Ledger) {
    && l.liveReserved + l.liveInUse <= (if l.liveLimit < 0 then 0 else l.liveLimit)
    && l.workReserved + l.workConsumed <= (if l.workLimit < 0 then 0 else l.workLimit)
  }

  predicate PanelsValid(m: map<string, Reservation>) {
    forall id :: id in m ==> ValidPanel(m[id])
  }

  lemma AdmitConserves(l: Ledger, id: string, digest: string, members: int, work: int)
    requires Conserved(l) && AdmitStep(l, id, digest, members, work).Ok?
    ensures Conserved(AdmitStep(l, id, digest, members, work).value)
  {
    var next := AdmitStep(l, id, digest, members, work).value;
    if id !in l.reservations {
      TotalsUpdate(l.reservations, id, next.reservations[id]);
    }
  }

  lemma EffectIsValid(l: Ledger, r: Reservation, op: MemberOp)
    requires ValidPanel(r) && MemberEffect(l, r, op).Ok?
    ensures var (m, p) := MemberEffect(l, r, op).value;
      && ValidPanel(p)
      && m.liveReserved - l.liveReserved == Unstarted(p) - Unstarted(r)
      && m.liveInUse - l.liveInUse == Live(p) - Live(r)
      && m.workConsumed - l.workConsumed == Spent(p) - Spent(r)
      && m.workReserved - l.workReserved == WorkLeft(p) - WorkLeft(r)
      && (WithinLimits(l) ==> WithinLimits(m))
      && m.reservations == l.reservations
  {}

  lemma MemberConserves(l: Ledger, op: MemberOp, id: string, fence: nat)
    requires Conserved(l) && MemberStep(l, op, id, fence).Ok?
    ensures Conserved(MemberStep(l, op, id, fence).value)
  {
    var r := l.reservations[id];
    EffectIsValid(l, r, op);
    var (m, p) := MemberEffect(l, r, op).value;
    TotalsUpdate(l.reservations, id, p);
  }

  lemma StepConserves(l: Ledger, c: Call)
    requires Conserved(l) && Step(l, c).Ok?
    ensures Conserved(Step(l, c).value)
  {
    match c
    case Admit(id, digest, members, work) => AdmitConserves(l, id, digest, members, work);
    case Member(op, id, fence) => MemberConserves(l, op, id, fence);
  }

  /** Conservation is kept by every sequence of calls, whatever their writes did. */
  lemma {:induction false} RunConserves(l: Ledger, calls: seq<(Call, WriteOutcome)>)
    requires Conserved(l)
    ensures Conserved(Run(l, calls))
  {
    if calls != [] {
      var before, c := Run(l, calls[..|calls| - 1]), calls[|calls| - 1].0;
      RunConserves(l, calls[..|calls| - 1]);
      if Step(before, c).Ok? { StepConserves(before, c); }
    }
  }

  lemma InitialConserves(workLimit: int, liveLimit: int)
    ensures Conserved(Initial(workLimit, liveLimit))
  {}

  /** In every reachable ledger the counters equal their sums over the panels, within both limits. */
  lemma EveryRunConserves(workLimit: int, liveLimit: int, calls: seq<(Call, WriteOutcome)>)
    ensures Conserved(Run(Initial(workLimit, liveLimit), calls))
  {
    InitialConserves(workLimit, liveLimit);
    RunConserves(Initial(workLimit, liveLimit), calls);
  }

  // -------------------------------------- when reserved work can run out early

  /** With a unit of work for each member admitted, no reachable ledger is overdrawn, and every unstarted
      member can start. */
  lemma CoveredRunsAreSafe(workLimit: int, liveLimit: int, calls: seq<(Call, WriteOutcome)>)
    requires Covered(calls)
    ensures
      var l := Run(Initial(workLimit, liveLimit), calls);
      l.workReserved >= 0 && UnstartedCanStart(l)
  {
    InitialConserves(workLimit, liveLimit);
    RunConserves(Initial(workLimit, liveLimit), calls);
    CoverageStays(Initial(workLimit, liveLimit), calls);
    EnoughToStart(Run(Initial(workLimit, liveLimit), calls));
  }

  /** Without it, a ledger can be: admit one member with no work, and cancel it. */
  lemma OverdrawnRun() returns (calls: seq<(Call, WriteOutcome)>)
    ensures Run(Initial(0, 1), calls).workReserved == -1
  {
    var l, w := Initial(0, 1), WriteOutcome.Durable;
    var a, c := Admit("p", "d", 1, 0), Member(Cancel, "p", 1);
    var one := [(a, w)];
    calls := one + [(c, w)];
    RunOneMore(l, [], a, one);
    RunOneMore(l, one, c, calls);
    var r := Reservation("d", 1, 0, 0, 0, 0, Reserved, 1);
    var m := Ledger(0, 0, 0, 1, 1, 0, 1, map["p" := r]);
    assert After(l, a, w) == m;
    assert MemberEffect(m, r, Cancel).Ok?;
  }

  lemma RunOneMore(l: Ledger, calls: seq<(Call, WriteOutcome)>, c: Call, more: seq<(Call, WriteOutcome)>)
    requires more == calls + [(c, WriteOutcome.Durable)]
    ensures Run(l, more) == After(Run(l, calls), c, WriteOutcome.Durable)
  {
    assert more[..|calls|] == calls;
  }

  predicate MembersOnly(calls: seq<(Call, WriteOutcome)>) {
    forall k :: 0 <= k < |calls| ==> calls[k].0.Member?
  }

  predicate Covered(calls: seq<(Call, WriteOutcome)>) {
    forall k :: 0 <= k < |calls| ==> calls[k].0.Admit? ==> calls[k].0.work >= calls[k].0.members
  }

  /** Work reserved for at least the reserved members, once true, stays true while every panel is
      admitted with a unit of work per member. */
  lemma {:induction false} CoverageStays(l: Ledger, calls: seq<(Call, WriteOutcome)>)
    requires Conserved(l) && l.workReserved >= l.liveReserved && Covered(calls)
    ensures Run(l, calls).workReserved >= Run(l, calls).liveReserved >= 0
  {
    RunConserves(l, calls);
    TotalAtLeast(Run(l, calls).reservations, Unstarted, "");
    if calls != [] {
      CoverageStays(l, calls[..|calls| - 1]);
    }
  }

  lemma CancelOne(l: Ledger) returns (c: Call)
    requires Conserved(l) && l.liveReserved > 0
    ensures c.Member?
    ensures var m := After(l, c, WriteOutcome.Durable);
      m.liveReserved == l.liveReserved - 1 && m.workReserved == l.workReserved - 1
  {
    var id := SomePositive(l.reservations, Unstarted);
    c := Member(Cancel, id, l.reservations[id].generation);
  }

  /** Any `n` unstarted members can be cancelled, each taking a unit of both reserves. */
  lemma {:induction false} CancelMany(l: Ledger, n: nat) returns (calls: seq<(Call, WriteOutcome)>)
    requires Conserved(l) && n <= l.liveReserved
    ensures MembersOnly(calls)
    ensures Run(l, calls).liveReserved == l.liveReserved - n && Run(l, calls).workReserved == l.workReserved - n
  {
    if n == 0 {
      calls := [];
    } else {
      var before := CancelMany(l, n - 1);
      RunConserves(l, before);
      var c := CancelOne(Run(l, before));
      calls := before + [(c, WriteOutcome.Durable)];
      assert calls[..|calls| - 1] == before;
    }
  }

  ghost predicate NeverOverdrawn(l: Ledger) {
    forall calls: seq<(Call, WriteOutcome)> :: MembersOnly(calls) ==> Run(l, calls).workReserved >= 0
  }

  ghost predicate UnstartedCanStart(l: Ledger) {
    forall id :: id in l.reservations && Unstarted(l.reservations[id]) > 0
      ==> MemberStep(l, Start, id, l.reservations[id].generation).Ok?
  }

  ghost predicate StartsNeverBlocked(l: Ledger) {
    forall calls: seq<(Call, WriteOutcome)> :: MembersOnly(calls) ==> UnstartedCanStart(Run(l, calls))
  }

  /** Reserved work can be driven negative by cancelling members exactly when it is below the
      reserved concurrency: cancelling takes work without looking. */
  lemma OverdrawnExactly(l: Ledger)
    requires Conserved(l)
    ensures NeverOverdrawn(l) <==> l.workReserved >= l.liveReserved
  {
    TotalAtLeast(l.reservations, Unstarted, "");
    if l.workReserved < l.liveReserved {
      var calls := CancelMany(l, l.liveReserved);
    } else {
      forall calls: seq<(Call, WriteOutcome)> | MembersOnly(calls) ensures Run(l, calls).workReserved >= 0 {
        CoverageStays(l, calls);
      }
    }
  }

  /** Members-only runs never add to the reserved concurrency. */
  lemma {:induction false} ReserveOnlyFalls(l: Ledger, calls: seq<(Call, WriteOutcome)>)
    requires MembersOnly(calls)
    ensures Run(l, calls).liveReserved <= l.liveReserved
  {
    if calls != [] {
      ReserveOnlyFalls(l, calls[..|calls| - 1]);
    }
  }

  /** No admitted member can ever be refused a start exactly when the reserved work covers the
      reserved concurrency, or there is no member left to start. */
  lemma StartsBlockedExactly(l: Ledger)
    requires Conserved(l)
    ensures StartsNeverBlocked(l) <==> l.workReserved >= l.liveReserved || l.liveReserved == 0
  {
    TotalAtLeast(l.reservations, Unstarted, "");
    if l.workReserved < l.liveReserved && l.liveReserved > 0 {
      var calls := CancelMany(l, if l.workReserved > 0 then l.workReserved else 0);
      var m := Run(l, calls);
      RunConserves(l, calls);
      var id := SomePositive(m.reservations, Unstarted);
      assert MemberStep(m, Start, id, m.reservations[id].generation) == Err(CumulativeWorkExhausted);
    } else {
      forall calls: seq<(Call, WriteOutcome)> | MembersOnly(calls) ensures UnstartedCanStart(Run(l, calls)) {
        StartsStayOpen(l, calls);
      }
    }
  }

  lemma StartsStayOpen(l: Ledger, calls: seq<(Call, WriteOutcome)>)
    requires Conserved(l) && (l.workReserved >= l.liveReserved || l.liveReserved == 0) && MembersOnly(calls)
    ensures UnstartedCanStart(Run(l, calls))
  {
    RunConserves(l, calls);
    if l.workReserved >= l.liveReserved {
      CoverageStays(l, calls);
    } else {
      ReserveOnlyFalls(l, calls);
    }
    EnoughToStart(Run(l, calls));
  }

  lemma EnoughToStart(m: Ledger)
    requires Conserved(m) && (m.workReserved >= m.liveReserved || m.liveReserved <= 0)
    ensures UnstartedCanStart(m)
  {
    forall id | id in m.reservations && Unstarted(m.reservations[id]) > 0
      ensures MemberStep(m, Start, id, m.reservations[id].generation).Ok?
    {
      TotalAtLeast(m.reservations, Unstarted, id);
    }
  }

  // ------------------------------------------------------------------ progress

  function Remaining(r: Reservation): int { 2 * Unstarted(r) + Live(r) }

  /** Each member operation brings its own panel strictly nearer to its end and leaves every other
      panel as it was; a finished panel admits none, and holds no concurrency. */
  lemma PanelsEnd(l: Ledger, op: MemberOp, id: string, fence: nat)
    requires Conserved(l) && id in l.reservations
    ensures var r := l.reservations[id];
      && Remaining(r) >= 0
      && (Finished(r) ==> Unstarted(r) == 0 && Live(r) == 0 && MemberStep(l, op, id, fence).Err?)
      && (Remaining(r) == 0 <==> Finished(r))
    ensures MemberStep(l, op, id, fence).Ok? ==>
      var m := MemberStep(l, op, id, fence).value;
      && m.reservations.Keys == l.reservations.Keys
      && Remaining(m.reservations[id]) < Remaining(l.reservations[id])
      && forall j :: j in l.reservations && j != id ==> m.reservations[j] == l.reservations[j]
  {}

  // --------------------------------------------------------- what calls answer

  /** A new panel is admitted exactly if its members, beside the unstarted and the running members of all panels,
      are within the live limit, and its work, beside what is left and spent of theirs, within the work limit. */
  lemma AdmittedExactly(l: Ledger, id: string, digest: string, members: int, work: int)
    requires Conserved(l) && id !in l.reservations
    ensures
      var m, e := l.reservations, AdmitStep(l, id, digest, members, work);
      if members <= 0 || work < 0 then e == Err(InvalidRequirement)
      else if Total(m, Unstarted) + Total(m, Live) + members > l.liveLimit then e == Err(LiveConcurrencyExhausted)
      else if Total(m, WorkLeft) + Total(m, Spent) + work > l.workLimit then e == Err(CumulativeWorkExhausted)
      else
        && e.Ok? && e.value.reservations.Keys == m.Keys + {id}
        && (forall k :: k in m ==> e.value.reservations[k] == m[k])
        && e.value.reservations[id] == Reservation(digest, members, work, 0, 0, 0, Reserved, e.value.generation)
        && e.value.generation == l.generation + 1
        && e.value.liveLimit == l.liveLimit && e.value.workLimit == l.workLimit
  {}

  /** A panel admitted before is answered as it is, under its own definition only. */
  lemma AdmittedAgain(l: Ledger, id: string, digest: string, members: int, work: int)
    requires id in l.reservations
    ensures AdmitStep(l, id, digest, members, work) ==
      if digest == l.reservations[id].digest then Ok(l) else Err(DefinitionChanged)
  {}

  /** One more of a panel's members is started, completed or cancelled, and nothing else of it changes but its
      status: finished panels are named after the operation that finished them. */
  predicate OneMore(r: Reservation, q: Reservation, op: MemberOp) {
    && q.started == r.started + (if op == Start then 1 else 0)
    && q.completed == r.completed + (if op == Complete then 1 else 0)
    && q.cancelled == r.cancelled + (if op == Cancel then 1 else 0)
    && q.digest == r.digest && q.members == r.members && q.work == r.work && q.generation == r.generation
    && q.status == if q.completed + q.cancelled == q.members
                   then (if op == Complete then Completed else Status.Cancelled)
                   else if q.started > 0 then Running else Reserved
  }

  /** Under a panel's own fence: a member is started exactly if one is unstarted and reserved work is left,
      completed exactly if one is running, cancelled exactly if one is unstarted; other panels are left alone. */
  lemma MemberExactly(l: Ledger, op: MemberOp, id: string)
    requires Conserved(l) && id in l.reservations
    ensures
      var r := l.reservations[id];
      var e := MemberStep(l, op, id, r.generation);
      if op == Complete && Live(r) == 0 then e == Err(NoRunningMember)
      else if op == Cancel && Unstarted(r) == 0 then e == Err(NoUnstartedMember)
      else if op == Start && Unstarted(r) == 0 then e == Err(AllMembersStarted)
      else if op == Start && Total(l.reservations, WorkLeft) <= 0 then e == Err(CumulativeWorkExhausted)
      else
        && e.Ok? && e.value.reservations.Keys == l.reservations.Keys && OneMore(r, e.value.reservations[id], op)
        && (forall k :: k in l.reservations && k != id ==> e.value.reservations[k] == l.reservations[k])
        && e.value.generation == l.generation + 1
        && e.value.liveLimit == l.liveLimit && e.value.workLimit == l.workLimit
  {
    assert ValidPanel(l.reservations[id]);
  }

  lemma FencedOff(l: Ledger, op: MemberOp, id: string, fence: nat)
    ensures id !in l.reservations ==> MemberStep(l, op, id, fence) == Err(PanelMissing)
    ensures id in l.reservations && fence != l.reservations[id].generation ==>
      MemberStep(l, op, id, fence) == Err(StaleFence)
  {}

  /** A panel's fence and definition never change, so its every holder passes the fence check: the fence tells
      panels apart, not holders. */
  lemma {:induction false} PanelStays(l: Ledger, calls: seq<(Call, WriteOutcome)>, id: string)
    requires id in l.reservations
    ensures
      var m := Run(l, calls);
      && id in m.reservations && m.reservations[id].generation == l.reservations[id].generation
      && m.reservations[id].digest == l.reservations[id].digest
      && m.reservations[id].members == l.reservations[id].members
      && m.reservations[id].work == l.reservations[id].work
    decreases |calls|
  {
    if calls != [] { PanelStays(l, calls[..|calls| - 1], id); }
  }
}
