/** What a caller of the ACP client gets is what the agent answered it. */
module AcpAnswers {
  import opened Options
  import opened AcpCalls

  /** The value is in the call's channel, on its way there, or received. */
  predicate HasValue(s: System, c: Chan, v: Value) {
    || (c in s.t.box && v in s.t.box[c])
    || s.reader == Sending(c, v)
    || (c in s.calls && s.calls[c].phase == Done(Got(v)))
  }

  /** The step that brings a value into the client. */
  function Source(v: Value): Step {
    match v case Response(id, body) => Dispatch(id, body) case Ended(error) => RejectAll(error)
  }

  lemma ValueHasSource(s: System, a: Step, c: Chan, v: Value)
    requires Inv(s) && Enabled(s, a) && HasValue(Apply(s, a), c, v)
    ensures HasValue(s, c, v) || a == Source(v)
  {
    if a.Receive? { assert s.t.box[a.c][0] in s.t.box[a.c]; }
  }

  /** The step at which the call ended without a value. */
  predicate GaveUp(s: System, c: Chan, cancelled: bool) {
    && c in s.calls
    && s.calls[c].phase in (if cancelled then {Cancelling, Done(Cancelled)} else {Failing, Done(WriteFailed)})
  }

  lemma GivingUpHasReason(s: System, a: Step, c: Chan, cancelled: bool)
    requires Inv(s) && Enabled(s, a) && GaveUp(Apply(s, a), c, cancelled)
    ensures GaveUp(s, c, cancelled) || a == if cancelled then Cancel(c) else Write(c, false)
  {}

  lemma {:induction false} ValuesComeFrom(s: System, steps: seq<Step>, c: Chan, v: Value)
    requires Inv(s) && Runs(s, steps) && HasValue(After(s, steps), c, v)
    ensures HasValue(s, c, v) || Source(v) in steps
    decreases |steps|
  {
    if steps != [] {
      StepKeepsInv(s, steps[0]);
      ValuesComeFrom(Apply(s, steps[0]), steps[1..], c, v);
      if HasValue(Apply(s, steps[0]), c, v) { ValueHasSource(s, steps[0], c, v); }
    }
  }

  lemma {:induction false} GivingUpComesFrom(s: System, steps: seq<Step>, c: Chan, cancelled: bool)
    requires Inv(s) && Runs(s, steps) && GaveUp(After(s, steps), c, cancelled)
    ensures GaveUp(s, c, cancelled) || (if cancelled then Cancel(c) else Write(c, false)) in steps
    decreases |steps|
  {
    if steps != [] {
      StepKeepsInv(s, steps[0]);
      GivingUpComesFrom(Apply(s, steps[0]), steps[1..], c, cancelled);
      if GaveUp(Apply(s, steps[0]), c, cancelled) { GivingUpHasReason(s, steps[0], c, cancelled); }
    }
  }

  /** In every run, a call ends only as something happened to it: with a response that the agent sent under the
      call's own identifier, with the error the stream ended in, by its own failed write, or by its own
      cancellation. */
  lemma EndsAsItHappened(steps: seq<Step>, c: Chan)
    requires Runs(Initial(), steps)
    requires c in After(Initial(), steps).calls && After(Initial(), steps).calls[c].phase.Done?
    ensures Happened(steps, c, After(Initial(), steps).calls[c].id, After(Initial(), steps).calls[c].phase.outcome)
  {
    var s := After(Initial(), steps);
    match s.calls[c].phase.outcome
    case Got(v) =>
      CallsGetTheirOwn(steps, c);
      ValuesComeFrom(Initial(), steps, c, v);
    case WriteFailed => GivingUpComesFrom(Initial(), steps, c, false);
    case Cancelled => GivingUpComesFrom(Initial(), steps, c, true);
  }

  /** What the outcome says of the call with this identifier is in the run. */
  predicate Happened(steps: seq<Step>, c: Chan, id: Id, outcome: Outcome) {
    match outcome
    case WriteFailed => Write(c, false) in steps
    case Cancelled => Cancel(c) in steps
    case Got(v) => if v.Response? then v.id == id && Dispatch(id, v.body) in steps else RejectAll(v.error) in steps
  }

  lemma ValueStays(s: System, a: Step, c: Chan, v: Value)
    requires Inv(s) && Enabled(s, a) && c in s.calls && HasValue(s, c, v)
    ensures HasValue(Apply(s, a), c, v)
  {
    assert CallOk(s, c);
    if a.Receive? && a.c == c { OnlyValue(s.t.box[c], v); }
    if a.RejectAll? { assert c in s.t.pending.Values ==> Listed(s, c); }
  }

  lemma OnlyValue(box: seq<Value>, v: Value)
    requires |box| <= 1
    ensures v in box ==> box[0] == v
  {}

  lemma {:induction false} ValueStaysFor(s: System, steps: seq<Step>, c: Chan, v: Value)
    requires Inv(s) && Runs(s, steps) && c in s.calls && HasValue(s, c, v)
    ensures HasValue(After(s, steps), c, v)
    decreases |steps|
  {
    if steps != [] {
      StepKeepsInv(s, steps[0]);
      ValueStays(s, steps[0], c, v);
      ValueStaysFor(Apply(s, steps[0]), steps[1..], c, v);
    }
  }

  /** The first response under a registered call's identifier is the call's: from then on it is on its way to the
      caller, in the channel, or received, and the caller can receive nothing else. */
  lemma ResponseArrives(s: System, id: Id, body: string, steps: seq<Step>)
    requires Inv(s) && Enabled(s, Dispatch(id, body)) && id in s.t.pending
    requires Runs(Apply(s, Dispatch(id, body)), steps)
    ensures
      var c, v, t := s.t.pending[id], Response(id, body), After(Apply(s, Dispatch(id, body)), steps);
      HasValue(t, c, v) && forall w :: HasValue(t, c, w) ==> w == v
  {
    var c, u := s.t.pending[id], Apply(s, Dispatch(id, body));
    StepKeepsInv(s, Dispatch(id, body));
    ValueStaysFor(u, steps, c, Response(id, body));
    EveryRunKeepsInv(u, steps);
    CallsStay(u, steps, c);
    OneValueOnly(After(u, steps), c);
  }

  lemma {:induction false} CallsStay(s: System, steps: seq<Step>, c: Chan)
    requires Inv(s) && Runs(s, steps) && c in s.calls
    ensures c in After(s, steps).calls
    decreases |steps|
  {
    if steps != [] {
      StepKeepsInv(s, steps[0]);
      CallsStay(Apply(s, steps[0]), steps[1..], c);
    }
  }

  lemma OneValueOnly(s: System, c: Chan)
    requires Inv(s) && c in s.calls
    ensures forall v, w :: HasValue(s, c, v) && HasValue(s, c, w) ==> v == w
  {
    assert CallOk(s, c);
  }

  /** A response nobody waits for is dropped. */
  lemma StrayResponse(s: System, id: Id, body: string)
    requires Enabled(s, Dispatch(id, body)) && id !in s.t.pending
    ensures Apply(s, Dispatch(id, body)) == s
  {}

  /** From the start, every call whose request is written and answered gets that answer. */
  lemma AnsweredRun(c: Chan, body: string) returns (steps: seq<Step>, t: System)
    ensures steps == [Begin(c), Register(c), Write(c, true)] + [Dispatch(1, body), Send, Receive(c)]
    ensures Runs(Initial(), steps) && t == After(Initial(), steps)
    ensures c in t.calls && t.calls[c].phase == Done(Got(Response(1, body)))
  {
    var s1 := Apply(Initial(), Begin(c));
    var s2 := Apply(s1, Register(c));
    var s3 := Apply(s2, Write(c, true));
    steps, t := AnswerOne(s3, c, body);
    steps := RunBy(s2, Write(c, true), steps, t);
    steps := RunBy(s1, Register(c), steps, t);
    steps := RunBy(Initial(), Begin(c), steps, t);
  }

  lemma AnswerOne(s: System, c: Chan, body: string) returns (steps: seq<Step>, t: System)
    requires s.reader == Reading && In(s, c, Waiting) && s.t.pending == map[1 := c] && s.t.box == map[c := []]
    ensures steps == [Dispatch(1, body), Send, Receive(c)] && Runs(s, steps) && t == After(s, steps)
    ensures c in t.calls && t.calls[c].phase == Done(Got(Response(1, body)))
  {
    var s1 := Apply(s, Dispatch(1, body));
    var s2 := Apply(s1, Send);
    t := Apply(s2, Receive(c));
    steps := RunBy(s2, Receive(c), [], t);
    steps := RunBy(s1, Send, steps, t);
    steps := RunBy(s, Dispatch(1, body), steps, t);
  }
}
