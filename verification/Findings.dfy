/** The findings ledger: reconciling the entries of a run with a review and with a quality-gate result. */
module Findings {
  import opened Options
  import opened Durable
  import opened Text
  import opened Ordering

  datatype Evidence = Note(text: string) | AbsentInRound(round: int)

  datatype Entry = Entry(
    id: string, source: string, severity: string, file: string, line: int, issue: string, fix: string,
    status: string, evidence: Evidence, reason: string, approvedBy: string,
    firstRound: int, lastRound: int, updatedAt: nat)

  const BLANK := Entry("", "", "", "", 0, "", "", "", Note(""), "", "", 0, 0, 0)

  datatype Finding = Finding(id: string, severity: string, file: string, line: int, issue: string, fix: string)

  datatype GateFinding = GateFinding(severity: string, path: string, message: string)

  datatype Disposition = Disposition(findingId: string, status: string, evidence: string)

  datatype Review = Review(dispositions: seq<Disposition>, findings: seq<Finding>)

  type Entries = map<string, Entry>

  /** A hash of a finding's text: nothing is known of it but that it is a function. */
  type Digest = Finding -> string

  /** When and in which round an update runs. */
  datatype Context = Context(round: int, now: nat, digest: Digest)

  function ReviewId(ctx: Context, f: Finding): string {
    if f.id == "" then ctx.digest(f) else f.id
  }

  function GateId(ctx: Context, g: GateFinding): string {
    ctx.digest(Finding("", g.severity, g.path, 0, g.message, "resolve quality gate"))
  }

  // ------------------------------------------------------------- one update of one entry

  function Disposed(es: Entries, d: Disposition, ctx: Context): Entries {
    if d.findingId !in es then es
    else es[d.findingId := es[d.findingId].(status := d.status, evidence := Note(d.evidence), updatedAt := ctx.now)]
  }

  /** The entry of a review finding, over what was there. */
  function FromReview(was: Option<Entry>, f: Finding, ctx: Context): Entry {
    var e := if was.Some? then was.value else BLANK.(firstRound := ctx.round);
    e.(id := ReviewId(ctx, f), source := "review", severity := f.severity, file := f.file, line := f.line,
       issue := f.issue, fix := f.fix, status := "open", lastRound := ctx.round, updatedAt := ctx.now)
  }

  function FromGate(was: Option<Entry>, g: GateFinding, ctx: Context): Entry {
    var e := if was.Some? then was.value else BLANK;
    e.(id := GateId(ctx, g), source := "quality_gate", severity := g.severity, file := g.path, issue := g.message,
       fix := "resolve the gate violation or record evidence through review", status := "open", lastRound := ctx.round,
       firstRound := if e.firstRound == 0 then ctx.round else e.firstRound, updatedAt := ctx.now)
  }

  function Find(es: Entries, id: string): Option<Entry> {
    if id in es then Some(es[id]) else None
  }

  function Reported(es: Entries, f: Finding, ctx: Context): Entries {
    es[ReviewId(ctx, f) := FromReview(Find(es, ReviewId(ctx, f)), f, ctx)]
  }

  function Gated(es: Entries, g: GateFinding, ctx: Context): Entries {
    es[GateId(ctx, g) := FromGate(Find(es, GateId(ctx, g)), g, ctx)]
  }

  predicate OpenGate(e: Entry) { e.source == "quality_gate" && e.status == "open" }

  function Settle(e: Entry, present: bool, ctx: Context): Entry {
    if OpenGate(e) && !present then
      e.(status := "resolved", evidence := AbsentInRound(ctx.round), lastRound := ctx.round, updatedAt := ctx.now)
    else e
  }

  // ------------------------------------------------------------- whole passes

  function ById(entries: seq<Entry>): Entries {
    if entries == [] then map[]
    else var e := entries[|entries| - 1]; ById(entries[..|entries| - 1])[e.id := e]
  }

  function AllDisposed(es: Entries, ds: seq<Disposition>, ctx: Context): Entries {
    if ds == [] then es else Disposed(AllDisposed(es, ds[..|ds| - 1], ctx), ds[|ds| - 1], ctx)
  }

  function AllReported(es: Entries, fs: seq<Finding>, ctx: Context): Entries {
    if fs == [] then es else Reported(AllReported(es, fs[..|fs| - 1], ctx), fs[|fs| - 1], ctx)
  }

  function AllGated(es: Entries, gs: seq<GateFinding>, ctx: Context): Entries {
    if gs == [] then es else Gated(AllGated(es, gs[..|gs| - 1], ctx), gs[|gs| - 1], ctx)
  }

  function GateIds(gs: seq<GateFinding>, ctx: Context): set<string> {
    set i | 0 <= i < |gs| :: GateId(ctx, gs[i])
  }

  function ReviewIds(fs: seq<Finding>, ctx: Context): set<string> {
    set i | 0 <= i < |fs| :: ReviewId(ctx, fs[i])
  }

  function Settled(es: Entries, present: set<string>, ctx: Context): Entries {
    map id | id in es :: Settle(es[id], id in present, ctx)
  }

  function Reviewed(es: Entries, review: Option<Review>, ctx: Context): Entries {
    if review.None? then es
    else AllReported(AllDisposed(es, review.value.dispositions, ctx), review.value.findings, ctx)
  }

  function Updated(es: Entries, review: Option<Review>, gates: Option<seq<GateFinding>>, ctx: Context): Entries {
    var r := Reviewed(es, review, ctx);
    if gates.None? then r else Settled(AllGated(r, gates.value, ctx), GateIds(gates.value, ctx), ctx)
  }

  // ------------------------------------------------------------- the update as the source runs it

  /** The ledger's entries in the order of their ids. */
  ghost predicate ListingOf(out: seq<Entry>, es: Entries) {
    && (forall i, j :: 0 <= i < j < |out| ==> Less(out[i].id, out[j].id))
    && (forall i :: 0 <= i < |out| ==> out[i].id in es && es[out[i].id] == out[i])
    && forall id :: id in es ==> exists i :: 0 <= i < |out| && out[i].id == id
  }

  /** Every entry is kept under its own id. */
  predicate Keyed(es: Entries) {
    forall id :: id in es ==> es[id].id == id
  }

  method UpdateFindingsLedger(ledger: seq<Entry>, review: Option<Review>, gates: Option<seq<GateFinding>>, ctx: Context)
    returns (out: seq<Entry>)
    ensures Keyed(Updated(ById(ledger), review, gates, ctx))
    ensures ListingOf(out, Updated(ById(ledger), review, gates, ctx))
  {
    var entries: Entries := map[];
    for i := 0 to |ledger|
      invariant entries == ById(ledger[..i])
    {
      assert ledger[..i + 1][..i] == ledger[..i];
      entries := entries[ledger[i].id := ledger[i]];
    }
    assert ledger[..|ledger|] == ledger;
    ByIdIsKeyed(ledger);
    UpdateIsKeyed(entries, review, gates, ctx);
    if review.Some? { entries := ApplyReview(entries, review.value, ctx); }
    if gates.Some? { entries := ApplyGates(entries, gates.value, ctx); }
    out := InOrder(entries);
  }

  method ApplyReview(entries0: Entries, review: Review, ctx: Context) returns (entries: Entries)
    requires Keyed(entries0)
    ensures entries == Reviewed(entries0, Some(review), ctx)
  {
    entries := entries0;
    var ds, fs := review.dispositions, review.findings;
    for i := 0 to |ds|
      invariant entries == AllDisposed(entries0, ds[..i], ctx)
    {
      assert ds[..i + 1][..i] == ds[..i];
      var d := ds[i];
      if d.findingId !in entries { continue; }
      var entry := entries[d.findingId];
      entry := entry.(status := d.status, evidence := Note(d.evidence), updatedAt := ctx.now);
      DisposedKeepsKeys(entries0, ds[..i], ctx);
      entries := entries[entry.id := entry];
    }
    assert ds[..|ds|] == ds;
    ghost var disposed := entries;
    for i := 0 to |fs|
      invariant entries == AllReported(disposed, fs[..i], ctx)
    {
      assert fs[..i + 1][..i] == fs[..i];
      var id := if fs[i].id == "" then ctx.digest(fs[i]) else fs[i].id;
      entries := entries[id := FromReview(Find(entries, id), fs[i], ctx)];
    }
    assert fs[..|fs|] == fs;
  }

  method ApplyGates(entries0: Entries, gates: seq<GateFinding>, ctx: Context) returns (entries: Entries)
    ensures entries == Settled(AllGated(entries0, gates, ctx), GateIds(gates, ctx), ctx)
  {
    entries := entries0;
    var current: set<string> := {};
    for i := 0 to |gates|
      invariant entries == AllGated(entries0, gates[..i], ctx)
      invariant current == GateIds(gates[..i], ctx)
    {
      assert gates[..i + 1][..i] == gates[..i];
      var id := GateId(ctx, gates[i]);
      GateIdsOfNext(gates, i, ctx);
      current := current + {id};
      entries := entries[id := FromGate(Find(entries, id), gates[i], ctx)];
    }
    assert gates[..|gates|] == gates;
    entries := ResolveAbsent(entries, current, ctx);
  }

  /** The second loop: open gate entries absent from the result, in any order. */
  method ResolveAbsent(gated: Entries, current: set<string>, ctx: Context) returns (entries: Entries)
    ensures entries == Settled(gated, current, ctx)
  {
    entries := gated;
    var left := entries.Keys;
    while left != {}
      invariant left <= gated.Keys == entries.Keys
      invariant forall id :: id in gated ==>
        entries[id] == if id in left then gated[id] else Settle(gated[id], id in current, ctx)
      decreases |left|
    {
      var id :| id in left;
      left := left - {id};
      var entry := entries[id];
      if entry.source != "quality_gate" || entry.status != "open" { continue; }
      if id in current { continue; }
      entry := entry.(status := "resolved", evidence := AbsentInRound(ctx.round), lastRound := ctx.round);
      entry := entry.(updatedAt := ctx.now);
      entries := entries[id := entry];
    }
  }

  lemma GateIdsOfNext(gs: seq<GateFinding>, n: nat, ctx: Context)
    requires n < |gs|
    ensures GateIds(gs[..n + 1], ctx) == GateIds(gs[..n], ctx) + {GateId(ctx, gs[n])}
  {
    var a, b := gs[..n + 1], gs[..n];
    assert forall i :: 0 <= i < n ==> a[i] == b[i];
    assert a[n] == gs[n];
  }

  method InOrder(es: Entries) returns (out: seq<Entry>)
    requires Keyed(es)
    ensures ListingOf(out, es)
  {
    var ids := SortedListing(es.Keys);
    assert forall i :: 0 <= i < |ids| ==> ids[i] in Elements(ids);
    out := seq(|ids|, i requires 0 <= i < |ids| => es[ids[i]]);
    forall id | id in es ensures exists i :: 0 <= i < |out| && out[i].id == id {
      assert id in Elements(ids);
      var i :| 0 <= i < |ids| && ids[i] == id;
      assert out[i].id == id;
    }
  }

  // ------------------------------------------------------------- keys

  lemma {:induction false} ByIdIsKeyed(entries: seq<Entry>)
    ensures Keyed(ById(entries))
    ensures ById(entries).Keys == set i | 0 <= i < |entries| :: entries[i].id
    decreases |entries|
  {
    if entries != [] {
      var n := |entries| - 1;
      ByIdIsKeyed(entries[..n]);
      assert forall i :: 0 <= i < n ==> entries[..n][i] == entries[i];
      assert ById(entries).Keys == ById(entries[..n]).Keys + {entries[n].id};
    }
  }

  lemma {:induction false} DisposedKeepsKeys(es: Entries, ds: seq<Disposition>, ctx: Context)
    requires Keyed(es)
    ensures Keyed(AllDisposed(es, ds, ctx)) && AllDisposed(es, ds, ctx).Keys == es.Keys
    decreases |ds|
  {
    if ds != [] { DisposedKeepsKeys(es, ds[..|ds| - 1], ctx); }
  }

  lemma {:induction false} ReportedAddsKeys(es: Entries, fs: seq<Finding>, ctx: Context)
    requires Keyed(es)
    ensures Keyed(AllReported(es, fs, ctx)) && AllReported(es, fs, ctx).Keys == es.Keys + ReviewIds(fs, ctx)
    decreases |fs|
  {
    if fs != [] {
      var n := |fs| - 1;
      ReportedAddsKeys(es, fs[..n], ctx);
      assert forall i :: 0 <= i < n ==> fs[..n][i] == fs[i];
      assert ReviewIds(fs, ctx) == ReviewIds(fs[..n], ctx) + {ReviewId(ctx, fs[n])};
    }
  }

  lemma {:induction false} GatedAddsKeys(es: Entries, gs: seq<GateFinding>, ctx: Context)
    requires Keyed(es)
    ensures Keyed(AllGated(es, gs, ctx)) && AllGated(es, gs, ctx).Keys == es.Keys + GateIds(gs, ctx)
    ensures forall id :: id in GateIds(gs, ctx) ==> OpenGate(AllGated(es, gs, ctx)[id])
    ensures forall id :: id in es && id !in GateIds(gs, ctx) ==> AllGated(es, gs, ctx)[id] == es[id]
    decreases |gs|
  {
    if gs != [] {
      var n := |gs| - 1;
      GatedAddsKeys(es, gs[..n], ctx);
      assert gs[..n + 1] == gs;
      GateIdsOfNext(gs, n, ctx);
    }
  }

  function AllIds(es: Entries, review: Option<Review>, gates: Option<seq<GateFinding>>, ctx: Context): set<string> {
    es.Keys
    + (if review.Some? then ReviewIds(review.value.findings, ctx) else {})
    + (if gates.Some? then GateIds(gates.value, ctx) else {})
  }

  /** No id disappears, and none appears but the findings' own. */
  lemma UpdateIsKeyed(es: Entries, review: Option<Review>, gates: Option<seq<GateFinding>>, ctx: Context)
    requires Keyed(es)
    ensures Keyed(Updated(es, review, gates, ctx))
    ensures Updated(es, review, gates, ctx).Keys == AllIds(es, review, gates, ctx)
    ensures Keyed(Reviewed(es, review, ctx))
  {
    if review.Some? { ReviewAddsKeys(es, review.value, ctx); }
    if gates.Some? { GatesAddKeys(Reviewed(es, review, ctx), gates.value, ctx); }
  }

  lemma ReviewAddsKeys(es: Entries, review: Review, ctx: Context)
    requires Keyed(es)
    ensures Keyed(Reviewed(es, Some(review), ctx))
    ensures Reviewed(es, Some(review), ctx).Keys == es.Keys + ReviewIds(review.findings, ctx)
  {
    DisposedKeepsKeys(es, review.dispositions, ctx);
    ReportedAddsKeys(AllDisposed(es, review.dispositions, ctx), review.findings, ctx);
  }

  lemma GatesAddKeys(es: Entries, gates: seq<GateFinding>, ctx: Context)
    requires Keyed(es)
    ensures Keyed(Settled(AllGated(es, gates, ctx), GateIds(gates, ctx), ctx))
    ensures Settled(AllGated(es, gates, ctx), GateIds(gates, ctx), ctx).Keys == es.Keys + GateIds(gates, ctx)
  {
    GatedAddsKeys(es, gates, ctx);
  }

  // ------------------------------------------------------------- what an update does

  /** After an update with a gate result, the open gate entries are exactly that result's findings. */
  lemma OpenGatesAreTheResult(es: Entries, review: Option<Review>, gates: seq<GateFinding>, ctx: Context)
    requires Keyed(es)
    ensures
      var u := Updated(es, review, Some(gates), ctx);
      forall id :: id in u && OpenGate(u[id]) <==> id in GateIds(gates, ctx)
  {
    UpdateIsKeyed(es, review, Some(gates), ctx);
    GatedAddsKeys(Reviewed(es, review, ctx), gates, ctx);
  }

  predicate Mentioned(id: string, review: Option<Review>, gates: Option<seq<GateFinding>>, ctx: Context) {
    || (review.Some? && (id in ReviewIds(review.value.findings, ctx)
        || exists i :: 0 <= i < |review.value.dispositions| && review.value.dispositions[i].findingId == id))
    || (gates.Some? && id in GateIds(gates.value, ctx))
  }

  /** An entry the update does not mention stays as it is, unless it is an open gate entry and there is a
      gate result, which resolves it. */
  lemma UnmentionedStay(es: Entries, review: Option<Review>, gates: Option<seq<GateFinding>>, ctx: Context, id: string)
    requires Keyed(es) && id in es && !Mentioned(id, review, gates, ctx)
    ensures
      var u := Updated(es, review, gates, ctx);
      id in u && u[id] == if gates.Some? then Settle(es[id], false, ctx) else es[id]
  {
    UpdateIsKeyed(es, review, gates, ctx);
    if review.Some? { ReviewedStay(es, review.value, ctx, id); }
    if gates.Some? { GatedAddsKeys(Reviewed(es, review, ctx), gates.value, ctx); }
  }

  lemma ReviewedStay(es: Entries, review: Review, ctx: Context, id: string)
    requires Keyed(es) && id in es && id !in ReviewIds(review.findings, ctx)
    requires forall i :: 0 <= i < |review.dispositions| ==> review.dispositions[i].findingId != id
    ensures id in Reviewed(es, Some(review), ctx) && Reviewed(es, Some(review), ctx)[id] == es[id]
  {
    DisposedStay(es, review.dispositions, ctx, id);
    ReportedStay(AllDisposed(es, review.dispositions, ctx), review.findings, ctx, id);
  }

  lemma {:induction false} DisposedStay(es: Entries, ds: seq<Disposition>, ctx: Context, id: string)
    requires id in es && forall i :: 0 <= i < |ds| ==> ds[i].findingId != id
    ensures id in AllDisposed(es, ds, ctx) && AllDisposed(es, ds, ctx)[id] == es[id]
    decreases |ds|
  {
    if ds != [] { DisposedStay(es, ds[..|ds| - 1], ctx, id); }
  }

  lemma {:induction false} ReportedStay(es: Entries, fs: seq<Finding>, ctx: Context, id: string)
    requires id in es && id !in ReviewIds(fs, ctx)
    ensures id in AllReported(es, fs, ctx) && AllReported(es, fs, ctx)[id] == es[id]
    decreases |fs|
  {
    if fs != [] {
      var n := |fs| - 1;
      assert ReviewId(ctx, fs[n]) in ReviewIds(fs, ctx);
      assert forall i :: 0 <= i < n ==> fs[..n][i] == fs[i];
      ReportedStay(es, fs[..n], ctx, id);
    }
  }

  /** A review finding ends as the last one reported under its id, with its first round kept. */
  lemma {:induction false} LastReportWins(es: Entries, fs: seq<Finding>, ctx: Context, k: nat)
    requires k < |fs| && forall j :: k < j < |fs| ==> ReviewId(ctx, fs[j]) != ReviewId(ctx, fs[k])
    ensures
      var id := ReviewId(ctx, fs[k]);
      var all := AllReported(es, fs, ctx);
      && id in all && all[id].status == "open" && all[id].source == "review" && all[id].lastRound == ctx.round
      && all[id].severity == fs[k].severity && all[id].file == fs[k].file && all[id].line == fs[k].line
      && all[id].issue == fs[k].issue && all[id].fix == fs[k].fix
      && all[id].firstRound == (if id in es then es[id].firstRound else ctx.round)
      && all[id].updatedAt == ctx.now && Aside(all[id]) == if id in es then Aside(es[id]) else Aside(BLANK)
    decreases |fs|
  {
    var n := |fs| - 1;
    if k < n { LastReportWins(es, fs[..n], ctx, k); } else { FirstRoundStays(es, fs[..n], ctx, ReviewId(ctx, fs[n])); }
  }

  /** What a report leaves alone: what was decided about the entry. */
  function Aside(e: Entry): (Evidence, string, string) { (e.evidence, e.reason, e.approvedBy) }

  lemma {:induction false} FirstRoundStays(es: Entries, fs: seq<Finding>, ctx: Context, id: string)
    ensures
      var all := AllReported(es, fs, ctx);
      && (id in es ==> id in all)
      && (id in all ==> all[id].firstRound == if id in es then es[id].firstRound else ctx.round)
      && (id in all ==> Aside(all[id]) == if id in es then Aside(es[id]) else Aside(BLANK))
    decreases |fs|
  {
    if fs != [] { FirstRoundStays(es, fs[..|fs| - 1], ctx, id); }
  }

  /** A gate finding ends as the last one with its id, whatever the entry was before, and keeps a first
      round that was set. */
  lemma {:induction false} LastGateFindingWins(es: Entries, gs: seq<GateFinding>, ctx: Context, k: nat, all: Entries)
    requires k < |gs| && forall j :: k < j < |gs| ==> GateId(ctx, gs[j]) != GateId(ctx, gs[k])
    requires all == AllGated(es, gs, ctx)
    ensures
      var id := GateId(ctx, gs[k]);
      var first := if id in es && es[id].firstRound != 0 then es[id].firstRound else ctx.round;
      id in all && ReportedBy(all[id], gs[k], first, ctx)
    decreases |gs|
  {
    var n, id := |gs| - 1, GateId(ctx, gs[k]);
    var init, before := gs[..n], AllGated(es, gs[..n], ctx);
    assert all == Gated(before, gs[n], ctx);
    if k < n {
      LastGateFindingWins(es, init, ctx, k, before);
      GatedElsewhere(before, gs[n], ctx, id);
    } else {
      FirstGateRoundStays(es, init, ctx, id, before);
      GatedHere(before, gs[n], ctx);
    }
  }

  lemma GatedHere(es: Entries, g: GateFinding, ctx: Context)
    ensures
      var id := GateId(ctx, g);
      var first := if id in es && es[id].firstRound != 0 then es[id].firstRound else ctx.round;
      id in Gated(es, g, ctx) && ReportedBy(Gated(es, g, ctx)[id], g, first, ctx)
  {}

  lemma GatedElsewhere(es: Entries, g: GateFinding, ctx: Context, id: string)
    requires id in es && id != GateId(ctx, g)
    ensures id in Gated(es, g, ctx) && Gated(es, g, ctx)[id] == es[id]
  {}

  predicate ReportedBy(e: Entry, g: GateFinding, firstRound: int, ctx: Context) {
    && OpenGate(e) && e.lastRound == ctx.round && e.firstRound == firstRound
    && e.severity == g.severity && e.file == g.path && e.issue == g.message && e.updatedAt == ctx.now
  }

  /** After an update: a finding of its review is an open entry under the identifier it came with, or under its
      digest if it came with none, even if the same review disposes of that entry; a gate finding of the same
      update under the same identifier comes later still. */
  lemma ReportedIsOpen(
    es: Entries, review: Review, gates: Option<seq<GateFinding>>, ctx: Context, k: nat, id: string)
    requires k < |review.findings| && forall j :: k < j < |review.findings| ==> ReviewId(ctx, review.findings[j]) != id
    requires var f := review.findings[k]; id == if f.id != "" then f.id else ctx.digest(f)
    requires Keyed(es) && (gates.Some? ==> id !in GateIds(gates.value, ctx))
    ensures
      var u := Updated(es, Some(review), gates, ctx);
      id in u && ReportOf(u[id], review.findings[k], id, ctx)
  {
    ReviewedHere(es, review, ctx, k, id);
    UpdateIsKeyed(es, Some(review), gates, ctx);
    if gates.Some? { NotGated(Reviewed(es, Some(review), ctx), gates.value, ctx, id); }
  }

  predicate ReportOf(e: Entry, f: Finding, id: string, ctx: Context) {
    && e.id == id && e.status == "open" && e.source == "review" && e.lastRound == ctx.round
    && e.severity == f.severity && e.file == f.file && e.line == f.line && e.issue == f.issue && e.fix == f.fix
  }

  lemma ReviewedHere(es: Entries, review: Review, ctx: Context, k: nat, id: string)
    requires k < |review.findings| && id == ReviewId(ctx, review.findings[k]) && Keyed(es)
    requires forall j :: k < j < |review.findings| ==> ReviewId(ctx, review.findings[j]) != id
    ensures var r := Reviewed(es, Some(review), ctx); id in r && ReportOf(r[id], review.findings[k], id, ctx)
  {
    ReviewAddsKeys(es, review, ctx);
    LastReportWins(AllDisposed(es, review.dispositions, ctx), review.findings, ctx, k);
  }

  lemma NotGated(es: Entries, gates: seq<GateFinding>, ctx: Context, id: string)
    requires Keyed(es) && id in es && id !in GateIds(gates, ctx)
    ensures
      var u := Settled(AllGated(es, gates, ctx), GateIds(gates, ctx), ctx);
      id in u && u[id] == Settle(es[id], false, ctx)
  {
    GatedAddsKeys(es, gates, ctx);
  }

  /** After an update: a known entry that its review disposes of and nothing else reports has that status and
      evidence, unless it is then an open gate entry and a gate result does not have it. */
  lemma DisposedIsDecided(
    es: Entries, review: Review, gates: Option<seq<GateFinding>>, ctx: Context, k: nat, id: string)
    requires k < |review.dispositions| && review.dispositions[k].findingId == id && id in es && Keyed(es)
    requires forall j :: k < j < |review.dispositions| ==> review.dispositions[j].findingId != id
    requires id !in ReviewIds(review.findings, ctx) && (gates.Some? ==> id !in GateIds(gates.value, ctx))
    ensures
      var d := review.dispositions[k];
      var e := es[id].(status := d.status, evidence := Note(d.evidence), updatedAt := ctx.now);
      var u := Updated(es, Some(review), gates, ctx);
      && id in u
      && u[id] == if gates.Some? && e.source == "quality_gate" && e.status == "open"
                  then e.(status := "resolved", evidence := AbsentInRound(ctx.round), lastRound := ctx.round) else e
  {
    UpdateIsKeyed(es, Some(review), gates, ctx);
    DisposedKeepsKeys(es, review.dispositions, ctx);
    LastDispositionWins(es, review.dispositions, ctx, k);
    ReportedStay(AllDisposed(es, review.dispositions, ctx), review.findings, ctx, id);
    if gates.Some? { NotGated(Reviewed(es, Some(review), ctx), gates.value, ctx, id); }
  }

  lemma {:induction false} FirstGateRoundStays(
    es: Entries, gs: seq<GateFinding>, ctx: Context, id: string, all: Entries)
    requires all == AllGated(es, gs, ctx)
    ensures
      var first := if id in es then es[id].firstRound else 0;
      && (id in es ==> id in all)
      && (id in all ==> all[id].firstRound == first || (first == 0 && all[id].firstRound == ctx.round))
    decreases |gs|
  {
    if gs != [] {
      var init := gs[..|gs| - 1];
      FirstGateRoundStays(es, init, ctx, id, AllGated(es, init, ctx));
    }
  }

  /** A disposition of a known entry decides its status and evidence, the last one if there are several,
      and nothing else of it. */
  lemma {:induction false} LastDispositionWins(es: Entries, ds: seq<Disposition>, ctx: Context, k: nat)
    requires k < |ds| && ds[k].findingId in es && Keyed(es)
    requires forall j :: k < j < |ds| ==> ds[j].findingId != ds[k].findingId
    ensures
      var id := ds[k].findingId;
      var all := AllDisposed(es, ds, ctx);
      id in all && all[id] == es[id].(status := ds[k].status, evidence := Note(ds[k].evidence), updatedAt := ctx.now)
    decreases |ds|
  {
    var n := |ds| - 1;
    if k < n {
      LastDispositionWins(es, ds[..n], ctx, k);
    } else {
      OnlyVerdictsChange(es, ds[..n], ctx, ds[n].findingId);
    }
  }

  function Unjudged(e: Entry): Entry { e.(status := "", evidence := Note(""), updatedAt := 0) }

  lemma {:induction false} OnlyVerdictsChange(es: Entries, ds: seq<Disposition>, ctx: Context, id: string)
    requires id in es
    ensures
      var all := AllDisposed(es, ds, ctx);
      id in all && Unjudged(all[id]) == Unjudged(es[id])
    decreases |ds|
  {
    if ds != [] { OnlyVerdictsChange(es, ds[..|ds| - 1], ctx, id); }
  }

  /** First round, last round, and the current round are in order. */
  predicate RoundsOk(es: Entries, round: int) {
    forall id :: id in es ==> 0 <= es[id].firstRound <= es[id].lastRound <= round
  }

  lemma UpdateKeepsRounds(
    es: Entries, review: Option<Review>, gates: Option<seq<GateFinding>>, ctx: Context, round: int)
    requires Keyed(es) && RoundsOk(es, round) && 0 <= round <= ctx.round
    ensures RoundsOk(Updated(es, review, gates, ctx), ctx.round)
  {
    ReviewedKeepsRounds(es, review, ctx);
    if gates.Some? { SettledKeepsRounds(Reviewed(es, review, ctx), gates.value, ctx); }
  }

  lemma ReviewedKeepsRounds(es: Entries, review: Option<Review>, ctx: Context)
    requires RoundsOk(es, ctx.round) && ctx.round >= 0
    ensures RoundsOk(Reviewed(es, review, ctx), ctx.round)
  {
    if review.Some? {
      DisposedKeepsRounds(es, review.value.dispositions, ctx);
      ReportedKeepsRounds(AllDisposed(es, review.value.dispositions, ctx), review.value.findings, ctx);
    }
  }

  lemma SettledKeepsRounds(es: Entries, gates: seq<GateFinding>, ctx: Context)
    requires RoundsOk(es, ctx.round) && ctx.round >= 0
    ensures RoundsOk(Settled(AllGated(es, gates, ctx), GateIds(gates, ctx), ctx), ctx.round)
  {
    GatedKeepsRounds(es, gates, ctx);
  }

  lemma {:induction false} DisposedKeepsRounds(es: Entries, ds: seq<Disposition>, ctx: Context)
    requires RoundsOk(es, ctx.round)
    ensures RoundsOk(AllDisposed(es, ds, ctx), ctx.round)
    decreases |ds|
  {
    if ds != [] { DisposedKeepsRounds(es, ds[..|ds| - 1], ctx); }
  }

  lemma {:induction false} ReportedKeepsRounds(es: Entries, fs: seq<Finding>, ctx: Context)
    requires RoundsOk(es, ctx.round) && ctx.round >= 0
    ensures RoundsOk(AllReported(es, fs, ctx), ctx.round)
    decreases |fs|
  {
    if fs != [] { ReportedKeepsRounds(es, fs[..|fs| - 1], ctx); }
  }

  lemma {:induction false} GatedKeepsRounds(es: Entries, gs: seq<GateFinding>, ctx: Context)
    requires RoundsOk(es, ctx.round) && ctx.round >= 0
    ensures RoundsOk(AllGated(es, gs, ctx), ctx.round)
    decreases |gs|
  {
    if gs != [] { GatedKeepsRounds(es, gs[..|gs| - 1], ctx); }
  }

  /** The written ledger does not depend on the order in which the map was walked. */
  lemma ListingIsUnique(a: seq<Entry>, b: seq<Entry>, es: Entries)
    requires ListingOf(a, es) && ListingOf(b, es)
    ensures a == b
  {
    var x, y := seq(|a|, i requires 0 <= i < |a| => a[i].id), seq(|b|, i requires 0 <= i < |b| => b[i].id);
    assert Elements(x) == es.Keys by {
      forall id | id in es ensures id in Elements(x) { var i :| 0 <= i < |a| && a[i].id == id; assert x[i] == id; }
    }
    assert Elements(y) == es.Keys by {
      forall id | id in es ensures id in Elements(y) { var i :| 0 <= i < |b| && b[i].id == id; assert y[i] == id; }
    }
    SortedIsUnique(x, y);
    assert |a| == |x| == |y| == |b|;
    forall i | 0 <= i < |a| ensures a[i] == b[i] { assert x[i] == y[i]; }
  }

  // ------------------------------------------------------------- the ledger over a run

  datatype Change = Change(review: Option<Review>, gates: Option<seq<GateFinding>>, ctx: Context)

  /** The ledgers a run's updates leave behind, beginning with none.  Rounds do not decrease; an update whose
      write fails leaves the ledger as it was. */
  ghost predicate IsRun(ledgers: seq<seq<Entry>>, changes: seq<Change>) {
    && |ledgers| == |changes| + 1 && ledgers[0] == []
    && forall k :: 0 <= k < |changes| ==> IsStep(ledgers, changes, k)
  }

  ghost predicate IsStep(ledgers: seq<seq<Entry>>, changes: seq<Change>, k: nat)
    requires |ledgers| == |changes| + 1 && k < |changes|
  {
    Follows(ledgers[k + 1], ledgers[k], changes[k]) && RoundAt(changes, k) <= changes[k].ctx.round
  }

  ghost predicate Follows(next: seq<Entry>, ledger: seq<Entry>, c: Change) {
    next == ledger || ListingOf(next, Updated(ById(ledger), c.review, c.gates, c.ctx))
  }

  /** The round of the last of the first `k` updates. */
  function RoundAt(changes: seq<Change>, k: nat): int
    requires k <= |changes|
  {
    if k == 0 then 0 else changes[k - 1].ctx.round
  }

  /** Entries are listed in the order of their ids, no id twice, with their rounds in order. */
  ghost predicate Ordered(ledger: seq<Entry>, round: int) {
    ListingOf(ledger, ById(ledger)) && 0 <= round && RoundsOk(ById(ledger), round)
  }

  /** So is every ledger of every run, up to the round of its latest update. */
  lemma {:induction false} EveryLedgerIsOrdered(ledgers: seq<seq<Entry>>, changes: seq<Change>, k: nat)
    requires IsRun(ledgers, changes) && k < |ledgers|
    ensures Ordered(ledgers[k], RoundAt(changes, k))
  {
    if k == 0 {
      assert Ordered([], 0);
    } else {
      EveryLedgerIsOrdered(ledgers, changes, k - 1);
      assert IsStep(ledgers, changes, k - 1);
      FollowingIsOrdered(ledgers[k], ledgers[k - 1], changes[k - 1], RoundAt(changes, k - 1));
    }
  }

  lemma FollowingIsOrdered(next: seq<Entry>, ledger: seq<Entry>, c: Change, round: int)
    requires Follows(next, ledger, c) && Ordered(ledger, round) && round <= c.ctx.round
    ensures Ordered(next, c.ctx.round)
  {
    if next != ledger {
      var es := ById(ledger);
      ByIdIsKeyed(ledger);
      UpdateKeepsRounds(es, c.review, c.gates, c.ctx, round);
      ListingById(next, Updated(es, c.review, c.gates, c.ctx));
    }
  }

  /** Reading a listing gives back what it lists. */
  lemma ListingById(out: seq<Entry>, es: Entries)
    requires ListingOf(out, es)
    ensures ById(out) == es
  {
    ByIdIsKeyed(out);
    forall i | 0 <= i < |out| ensures out[i].id in ById(out) && ById(out)[out[i].id] == out[i] {
      forall j | i < j < |out| ensures out[j].id != out[i].id { LessIsIrreflexive(out[i].id); }
      ByIdFinds(out, i);
    }
    forall id | id in es ensures id in ById(out) && ById(out)[id] == es[id] {
      var i :| 0 <= i < |out| && out[i].id == id;
    }
  }

  lemma {:induction false} ByIdFinds(entries: seq<Entry>, i: nat)
    requires i < |entries| && forall j :: i < j < |entries| ==> entries[j].id != entries[i].id
    ensures entries[i].id in ById(entries) && ById(entries)[entries[i].id] == entries[i]
    decreases |entries|
  {
    if i < |entries| - 1 { ByIdFinds(entries[..|entries| - 1], i); }
  }

  /** An entry of the one ledger is in the other, with the same first round if that was set. */
  predicate Lasts(ledger: seq<Entry>, later: seq<Entry>, id: string) {
    var a, b := ById(ledger), ById(later);
    id in a ==> id in b && (a[id].firstRound != 0 ==> b[id].firstRound == a[id].firstRound)
  }

  /** An entry once in the ledger is in every later one, and keeps a first round that was set. */
  lemma {:induction false} FirstRoundsLast(ledgers: seq<seq<Entry>>, changes: seq<Change>, j: nat, k: nat, id: string)
    requires IsRun(ledgers, changes) && j <= k < |ledgers|
    ensures Lasts(ledgers[j], ledgers[k], id)
    decreases k
  {
    if j < k {
      FirstRoundsLast(ledgers, changes, j, k - 1, id);
      assert IsStep(ledgers, changes, k - 1);
      FirstRoundFollows(ledgers[k], ledgers[k - 1], changes[k - 1], id);
    }
  }

  lemma FirstRoundFollows(next: seq<Entry>, ledger: seq<Entry>, c: Change, id: string)
    requires Follows(next, ledger, c)
    ensures Lasts(ledger, next, id)
  {
    if next != ledger && id in ById(ledger) {
      ByIdIsKeyed(ledger);
      UpdateKeepsFirst(ById(ledger), c.review, c.gates, c.ctx, id);
      ListingById(next, Updated(ById(ledger), c.review, c.gates, c.ctx));
    }
  }

  lemma UpdateKeepsFirst(es: Entries, review: Option<Review>, gates: Option<seq<GateFinding>>, ctx: Context, id: string)
    requires Keyed(es) && id in es
    ensures
      var u := Updated(es, review, gates, ctx);
      id in u && (es[id].firstRound != 0 ==> u[id].firstRound == es[id].firstRound)
  {
    var r := Reviewed(es, review, ctx);
    if review.Some? {
      OnlyVerdictsChange(es, review.value.dispositions, ctx, id);
      FirstRoundStays(AllDisposed(es, review.value.dispositions, ctx), review.value.findings, ctx, id);
    }
    if gates.Some? { FirstGateRoundStays(r, gates.value, ctx, id, AllGated(r, gates.value, ctx)); }
  }

  // ------------------------------------------------------------- counting and operator commands

  predicate Blocking(e: Entry) { e.severity == "blocker" || e.severity == "major" }

  datatype Summary = Summary(openBlocking: nat, openTotal: nat)

  /** Which of the first `n` entries are open, and which of them block. */
  ghost function OpenIn(entries: seq<Entry>, n: nat): set<int>
    requires n <= |entries|
  {
    set i | 0 <= i < n && entries[i].status == "open"
  }

  ghost function BlockingIn(entries: seq<Entry>, n: nat): set<int>
    requires n <= |entries|
  {
    set i | 0 <= i < n && entries[i].status == "open" && entries[i].severity in {"blocker", "major"}
  }

  ghost predicate Counts(s: Summary, entries: seq<Entry>) {
    s.openTotal == |OpenIn(entries, |entries|)| && s.openBlocking == |BlockingIn(entries, |entries|)|
  }

  lemma OneMoreOpen(entries: seq<Entry>, n: nat)
    requires n < |entries|
    ensures |OpenIn(entries, n + 1)| == |OpenIn(entries, n)| + if entries[n].status == "open" then 1 else 0
  {
    var more := if entries[n].status == "open" then {n as int} else {};
    assert OpenIn(entries, n + 1) == OpenIn(entries, n) + more;
  }

  lemma OneMoreBlocking(entries: seq<Entry>, n: nat)
    requires n < |entries|
    ensures
      |BlockingIn(entries, n + 1)| ==
      |BlockingIn(entries, n)| + if entries[n].status == "open" && Blocking(entries[n]) then 1 else 0
  {
    var more := if entries[n].status == "open" && Blocking(entries[n]) then {n as int} else {};
    assert BlockingIn(entries, n + 1) == BlockingIn(entries, n) + more;
  }

  method SummarizeFindings(entries: seq<Entry>) returns (s: Summary)
    ensures Counts(s, entries)
  {
    var openBlocking, openTotal := 0, 0;
    for i := 0 to |entries|
      invariant openTotal == |OpenIn(entries, i)| && openBlocking == |BlockingIn(entries, i)|
    {
      OneMoreOpen(entries, i);
      OneMoreBlocking(entries, i);
      if entries[i].status != "open" { continue; }
      openTotal := openTotal + 1;
      if Blocking(entries[i]) {
        openBlocking := openBlocking + 1;
      }
    }
    s := Summary(openBlocking, openTotal);
  }

  /** `findings.json`: a missing one reads as empty. */
  datatype Stored = Unreadable | Stored(entries: seq<Entry>)

  class FindingsFile {
    var file: Stored

    constructor ()
      ensures file == Stored([])
    {
      file := Stored([]);
    }

    /** All of `updateFindingsLedger`: a file that cannot be read, or written, is left as it is or holds the
        whole update, and a summary is returned exactly when the update is durable. */
    method Update(review: Option<Review>, gates: Option<seq<GateFinding>>, ctx: Context, w: WriteOutcome)
      returns (summary: Option<Summary>)
      modifies this
      ensures old(file).Unreadable? || w.NotReplaced? ==> file == old(file)
      ensures !old(file).Unreadable? && !w.NotReplaced? ==>
        file.Stored? && ListingOf(file.entries, Updated(ById(old(file).entries), review, gates, ctx))
      ensures summary.Some? <==> !old(file).Unreadable? && w.Durable?
      ensures summary.Some? ==> file.Stored? && Counts(summary.value, file.entries)
    {
      if file.Unreadable? { return None; }
      var out := UpdateFindingsLedger(file.entries, review, gates, ctx);
      if !w.NotReplaced? { file := Stored(out); }
      if !w.Durable? { return None; }
      var s := SummarizeFindings(out);
      summary := Some(s);
    }
  }

  datatype Refusal = NoReason | NotFound | NotBlocking | NotOpen | NotReview | BlockingFinding | UnknownSeverity

  datatype Result = Ok(entries: seq<Entry>) | Err(refusal: Refusal)

  /** The first entry with the id. */
  predicate FirstAt(entries: seq<Entry>, id: string, i: nat) {
    i < |entries| && entries[i].id == id && forall j :: 0 <= j < i ==> entries[j].id != id
  }

  predicate Missing(entries: seq<Entry>, id: string) {
    forall j :: 0 <= j < |entries| ==> entries[j].id != id
  }

  function DeferredAs(e: Entry, reason: string, now: nat): Entry {
    e.(status := "deferred_with_approval", reason := reason, approvedBy := "operator", updatedAt := now)
  }

  method DeferFinding(entries: seq<Entry>, id: string, reason: string, now: nat) returns (r: Result)
    ensures r == Err(NoReason) <==> Trim(reason) == ""
    ensures r == Err(NotFound) <==> Trim(reason) != "" && Missing(entries, id)
    ensures forall i: nat :: FirstAt(entries, id, i) && Trim(reason) != "" ==>
      r == if entries[i].severity !in {"blocker", "major"} then Err(NotBlocking)
           else Ok(entries[i := entries[i].(
             status := "deferred_with_approval", reason := Trim(reason), approvedBy := "operator", updatedAt := now)])
  {
    if Trim(reason) == "" { return Err(NoReason); }
    for i := 0 to |entries|
      invariant forall j :: 0 <= j < i ==> entries[j].id != id
    {
      if entries[i].id != id { continue; }
      if !Blocking(entries[i]) { return Err(NotBlocking); }
      return Ok(entries[i := DeferredAs(entries[i], Trim(reason), now)]);
    }
    r := Err(NotFound);
  }

  method ResolveNonBlockingReviewFinding(entries: seq<Entry>, id: string, evidence: string, now: nat)
    returns (r: Result)
    ensures r == Err(NoReason) <==> Trim(evidence) == ""
    ensures r == Err(NotFound) <==> Trim(evidence) != "" && Missing(entries, id)
    ensures forall i: nat :: FirstAt(entries, id, i) && Trim(evidence) != "" ==>
      var e := entries[i];
      r == if e.status != "open" then Err(NotOpen)
           else if e.source != "review" then Err(NotReview)
           else if e.severity in {"blocker", "major"} then Err(BlockingFinding)
           else if e.severity !in {"minor", "nit"} then Err(UnknownSeverity)
           else Ok(entries[i := e.(status := "fixed", evidence := Note(Trim(evidence)), updatedAt := now)])
  {
    if Trim(evidence) == "" { return Err(NoReason); }
    for i := 0 to |entries|
      invariant forall j :: 0 <= j < i ==> entries[j].id != id
    {
      var e := entries[i];
      if e.id != id { continue; }
      if e.status != "open" { return Err(NotOpen); }
      if e.source != "review" { return Err(NotReview); }
      if Blocking(e) { return Err(BlockingFinding); }
      if e.severity != "minor" && e.severity != "nit" { return Err(UnknownSeverity); }
      return Ok(entries[i := e.(status := "fixed", evidence := Note(Trim(evidence)), updatedAt := now)]);
    }
    r := Err(NotFound);
  }
}
