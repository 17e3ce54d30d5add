/** The pending-call table of the ACP client: callers, the reader of the agent's stream, and the end of
the stream, interleaved.  One step is one locked section, one channel operation, or one write. */
module AcpCalls {
  import opened Options

  type Id = nat

  /** The identity of a call's channel, which holds at most one value. */
  type Chan = nat

  datatype Value = Response(id: Id, body: string) | Ended(error: string)

  /** The client's fields, and the contents of the channels its callers made. */
  datatype Table = Table(nextId: Id, pending: map<Id, Chan>, box: map<Chan, seq<Value>>, closed: bool)

  /** The locked section of `dispatch`. */
  function Taken(t: Table, id: Id): (Table, Option<Chan>) {
    if id in t.pending then (t.(pending := t.pending - {id}), Some(t.pending[id])) else (t, None)
  }

  function Sent(t: Table, c: Chan, v: Value): Table
    requires c in t.box
  {
    t.(box := t.box[c := t.box[c] + [v]])
  }

  /** All of `rejectPending`, which holds the lock throughout. */
  function Rejected(t: Table, error: string): Table {
    t.(pending := map[],
       box := map c | c in t.box :: if c in t.pending.Values then t.box[c] + [Ended(error)] else t.box[c])
  }

  /** What the channels hold when the calls in `left` are still to be rejected. */
  predicate Settled(t: Table, left: set<Chan>, error: string, box: map<Chan, seq<Value>>) {
    && box.Keys == t.box.Keys
    && forall c :: c in box ==>
         box[c] == if c in t.pending.Values && c !in left then t.box[c] + [Ended(error)] else t.box[c]
  }

  lemma SettlesOne(t: Table, left: set<Chan>, error: string, box: map<Chan, seq<Value>>, c: Chan)
    requires Settled(t, left, error, box) && c in left && c in t.pending.Values && c in box
    ensures Settled(t, left - {c}, error, box[c := box[c] + [Ended(error)]])
  {}

  lemma SettledAll(t: Table, error: string, box: map<Chan, seq<Value>>)
    requires Settled(t, {}, error, box)
    ensures box == Rejected(t, error).box
  {}

  class Client {
    var nextId: Id
    var pending: map<Id, Chan>
    var box: map<Chan, seq<Value>>
    var closed: bool

    ghost function View(): Table
      reads this
    {
      Table(nextId, pending, box, closed)
    }

    constructor ()
      ensures View() == Table(0, map[], map[], false)
    {
      nextId, pending, box, closed := 0, map[], map[], false;
    }

    method Number(c: Chan) returns (id: Id)
      requires c !in box
      modifies this
      ensures id == old(nextId) + 1
      ensures View() == Table(id, old(pending), old(box)[c := []], old(closed))
      ensures forall s: System {:trigger Apply(s, Begin(c))} ::
        s.t == old(View()) && Enabled(s, Begin(c))
        ==> Apply(s, Begin(c)).t == View() && Apply(s, Begin(c)).calls[c].id == id
    {
      nextId := nextId + 1;
      id, box := nextId, box[c := []];
    }

    method Register(id: Id, c: Chan)
      modifies this
      ensures View() == old(View()).(pending := old(pending)[id := c])
      ensures forall s: System {:trigger Apply(s, Step.Register(c))} ::
        s.t == old(View()) && Enabled(s, Step.Register(c)) && s.calls[c].id == id
        ==> Apply(s, Step.Register(c)).t == View()
    {
      pending := pending[id := c];
    }

    method Forget(id: Id)
      modifies this
      ensures View() == old(View()).(pending := old(pending) - {id})
      ensures forall s: System, c: Chan {:trigger Apply(s, Step.Forget(c))} ::
        s.t == old(View()) && Enabled(s, Step.Forget(c)) && s.calls[c].id == id
        ==> Apply(s, Step.Forget(c)).t == View()
    {
      pending := pending - {id};
    }

    method Take(id: Id) returns (c: Option<Chan>)
      modifies this
      ensures (View(), c) == Taken(old(View()), id)
      ensures forall s: System, body: string {:trigger Apply(s, Dispatch(id, body))} ::
        s.t == old(View()) && Enabled(s, Dispatch(id, body))
        ==> Apply(s, Dispatch(id, body)).t == View()
            && Apply(s, Dispatch(id, body)).reader == if c.Some? then Sending(c.value, Response(id, body)) else Reading
    {
      c := if id in pending then Some(pending[id]) else None;
      if c.Some? { pending := pending - {id}; }
    }

    method Send(c: Chan, v: Value)
      requires c in box
      modifies this
      ensures View() == Sent(old(View()), c, v)
      ensures forall s: System {:trigger Apply(s, Step.Send)} ::
        s.t == old(View()) && Enabled(s, Step.Send) && s.reader == Sending(c, v)
        ==> Apply(s, Step.Send).t == View()
    {
      box := box[c := box[c] + [v]];
    }

    /** The end of the stream: `serve` sets the flag before it rejects. */
    method MarkClosed()
      modifies this
      ensures View() == old(View()).(closed := true)
      ensures forall s: System {:trigger Apply(s, EndOfStream)} ::
        s.t == old(View()) && Enabled(s, EndOfStream) ==> Apply(s, EndOfStream).t == View()
    {
      closed := true;
    }

    method RejectPending(error: string)
      requires Distinct(pending) && pending.Values <= box.Keys
      modifies this
      ensures View() == Rejected(old(View()), error)
      ensures forall s: System {:trigger Apply(s, RejectAll(error))} ::
        s.t == old(View()) && Enabled(s, RejectAll(error)) ==> Apply(s, RejectAll(error)).t == View()
    {
      ghost var table := View();
      while pending != map[]
        invariant nextId == table.nextId && closed == table.closed && Settled(table, pending.Values, error, box)
        invariant Distinct(pending) && pending.Values <= table.pending.Values
        decreases |pending|
      {
        var id :| id in pending;
        RemovedOne(pending, id);
        SettlesOne(table, pending.Values, error, box, pending[id]);
        Send(pending[id], Ended(error));
        Forget(id);
      }
      SettledAll(table, error, box);
    }
  }

  predicate Distinct(pending: map<Id, Chan>) {
    forall i, j :: i in pending && j in pending && i != j ==> pending[i] != pending[j]
  }

  lemma RemovedOne(pending: map<Id, Chan>, id: Id)
    requires id in pending && Distinct(pending)
    ensures var rest := pending - {id};
      && rest.Values == pending.Values - {pending[id]} && pending[id] in pending.Values
      && |rest| < |pending| && Distinct(rest)
  {
    var rest := pending - {id};
    assert pending == rest[id := pending[id]];
    forall c | c in pending.Values && c != pending[id] ensures c in rest.Values {
      var i :| i in pending && pending[i] == c;
      assert rest[i] == c;
    }
  }

  // ------------------------------------------------------------- the interleaving

  datatype Outcome = Got(v: Value) | WriteFailed | Cancelled

  /** `Numbered` calls have an id and a channel and are not in the table yet; `Failing` and `Cancelling`
      ones are about to leave it. */
  datatype Phase = Numbered | Registered | Waiting | Failing | Cancelling | Done(outcome: Outcome)

  /** `late`: entered the table after `rejectPending`. */
  datatype Call = Call(id: Id, phase: Phase, late: bool)

  datatype Reader = Reading | Sending(c: Chan, v: Value) | Closing | Stopped

  datatype System = System(t: Table, calls: map<Chan, Call>, reader: Reader)

  datatype Step =
    | Begin(c: Chan) | Register(c: Chan) | Write(c: Chan, ok: bool)
    | Cancel(c: Chan) | Forget(c: Chan) | Receive(c: Chan)
    | Dispatch(id: Id, body: string) | Send | EndOfStream | RejectAll(error: string)

  function Initial(): System { System(Table(0, map[], map[], false), map[], Reading) }

  predicate In(s: System, c: Chan, phase: Phase) {
    c in s.calls && s.calls[c].phase == phase
  }

  /** What may happen.  A send on a full channel may not: it blocks. */
  predicate Enabled(s: System, a: Step) {
    match a
    case Begin(c) => c !in s.calls && c !in s.t.box
    case Register(c) => In(s, c, Numbered)
    case Write(c, _) => In(s, c, Registered)
    case Cancel(c) => In(s, c, Waiting)
    case Forget(c) => In(s, c, Failing) || In(s, c, Cancelling)
    case Receive(c) => In(s, c, Waiting) && c in s.t.box && s.t.box[c] != []
    case Dispatch(_, _) => s.reader == Reading
    case Send => s.reader.Sending? && s.reader.c in s.t.box && s.t.box[s.reader.c] == []
    case EndOfStream => s.reader == Reading
    case RejectAll(_) =>
      s.reader == Closing
      && forall id :: id in s.t.pending ==> s.t.pending[id] in s.t.box && s.t.box[s.t.pending[id]] == []
  }

  function Moved(s: System, c: Chan, phase: Phase): System
    requires c in s.calls
  {
    s.(calls := s.calls[c := s.calls[c].(phase := phase)])
  }

  function Apply(s: System, a: Step): System
    requires Enabled(s, a)
  {
    match a
    case Begin(c) =>
      var id := s.t.nextId + 1;
      s.(t := s.t.(nextId := id, box := s.t.box[c := []]), calls := s.calls[c := Call(id, Numbered, false)])
    case Register(c) =>
      s.(t := s.t.(pending := s.t.pending[s.calls[c].id := c]),
         calls := s.calls[c := s.calls[c].(phase := Registered, late := s.reader == Stopped)])
    case Write(c, ok) => Moved(s, c, if ok then Waiting else Failing)
    case Cancel(c) => Moved(s, c, Cancelling)
    case Forget(c) =>
      var s' := Moved(s, c, Done(if s.calls[c].phase == Failing then WriteFailed else Cancelled));
      s'.(t := s.t.(pending := s.t.pending - {s.calls[c].id}))
    case Receive(c) =>
      var s' := Moved(s, c, Done(Got(s.t.box[c][0])));
      s'.(t := s.t.(box := s.t.box[c := s.t.box[c][1..]]))
    case Dispatch(id, body) =>
      var (t, c) := Taken(s.t, id);
      s.(t := t, reader := if c.Some? then Sending(c.value, Response(id, body)) else Reading)
    case Send => s.(t := Sent(s.t, s.reader.c, s.reader.v), reader := Reading)
    case EndOfStream => s.(t := s.t.(closed := true), reader := Closing)
    case RejectAll(error) => s.(t := Rejected(s.t, error), reader := Stopped)
  }

  predicate Runs(s: System, steps: seq<Step>)
    decreases |steps|
  {
    steps == [] || (Enabled(s, steps[0]) && Runs(Apply(s, steps[0]), steps[1..]))
  }

  function After(s: System, steps: seq<Step>): System
    requires Runs(s, steps)
    decreases |steps|
  {
    if steps == [] then s else After(Apply(s, steps[0]), steps[1..])
  }

  // ------------------------------------------------------------- the invariant

  predicate Own(call: Call, v: Value) {
    v.Response? ==> v.id == call.id
  }

  predicate Listed(s: System, c: Chan)
    requires c in s.calls
  {
    s.calls[c].id in s.t.pending && s.t.pending[s.calls[c].id] == c
  }

  predicate BeingSent(s: System, c: Chan) {
    s.reader.Sending? && s.reader.c == c
  }

  /** How many values the call's channel was given or is about to be given. */
  function Values(s: System, c: Chan): nat
    requires c in s.calls && c in s.t.box
  {
    |s.t.box[c]|
    + (if s.calls[c].phase.Done? && s.calls[c].phase.outcome.Got? then 1 else 0)
    + (if BeingSent(s, c) then 1 else 0)
  }

  predicate CallOk(s: System, c: Chan)
    requires c in s.calls && c in s.t.box
  {
    var call := s.calls[c];
    && Values(s, c) + (if Listed(s, c) then 1 else 0) <= 1
    && (forall v :: v in s.t.box[c] ==> Own(call, v))
    && (call.phase.Done? && call.phase.outcome.Got? ==> Own(call, call.phase.outcome.v))
    && (BeingSent(s, c) ==> Own(call, s.reader.v))
    && match call.phase
       case Numbered => Values(s, c) == 0 && !Listed(s, c) && !call.late
       case Done(_) => !Listed(s, c)
       case _ => Values(s, c) == 1 || Listed(s, c)
  }

  predicate LateOk(s: System, c: Chan)
    requires c in s.calls && c in s.t.box
  {
    && (s.calls[c].late ==> s.reader == Stopped && Values(s, c) == 0)
    && (s.reader == Stopped && Listed(s, c) ==> s.calls[c].late)
  }

  predicate TableOk(s: System) {
    && s.t.box.Keys == s.calls.Keys
    && (s.t.closed <==> s.reader in {Closing, Stopped})
    && (forall id :: id in s.t.pending ==> s.t.pending[id] in s.calls && s.calls[s.t.pending[id]].id == id)
    && (forall c, d :: c in s.calls && d in s.calls && c != d ==> s.calls[c].id != s.calls[d].id)
    && (forall c :: c in s.calls ==> 1 <= s.calls[c].id <= s.t.nextId)
    && (s.reader.Sending? ==> s.reader.c in s.calls)
  }

  predicate Inv(s: System) {
    TableOk(s) && forall c :: c in s.calls ==> CallOk(s, c) && LateOk(s, c)
  }

  predicate IsCallers(a: Step) {
    a.Begin? || a.Register? || a.Write? || a.Cancel? || a.Forget? || a.Receive?
  }

  lemma CallersKeepTable(s: System, a: Step)
    requires TableOk(s) && Enabled(s, a) && IsCallers(a)
    ensures TableOk(Apply(s, a))
  {
    if a.Begin? { BeginKeepsTable(s, a.c); } else { IdsStay(s, Apply(s, a), a.c); }
  }

  lemma IdsStay(s: System, s': System, c: Chan)
    requires TableOk(s) && s'.reader == s.reader && s'.t.nextId == s.t.nextId && s'.t.closed == s.t.closed
    requires s'.calls.Keys == s.calls.Keys == s'.t.box.Keys
    requires forall d :: d in s.calls ==> s'.calls[d].id == s.calls[d].id
    requires c in s.calls && forall id :: id in s'.t.pending ==>
      (id in s.t.pending && s'.t.pending[id] == s.t.pending[id]) || (s'.t.pending[id] == c && s.calls[c].id == id)
    ensures TableOk(s')
  {}

  lemma BeginKeepsTable(s: System, c: Chan)
    requires TableOk(s) && Enabled(s, Begin(c))
    ensures TableOk(Apply(s, Begin(c)))
  {}

  lemma ReaderKeepsTable(s: System, a: Step)
    requires TableOk(s) && Enabled(s, a) && !IsCallers(a)
    ensures TableOk(Apply(s, a))
  {}

  /** A caller's own step. */
  lemma OwnStepKeepsCall(s: System, a: Step, c: Chan)
    requires TableOk(s) && Enabled(s, a) && IsCallers(a) && a.c == c && TableOk(Apply(s, a))
    requires c in s.calls ==> CallOk(s, c) && LateOk(s, c)
    ensures CallOk(Apply(s, a), c) && LateOk(Apply(s, a), c)
  {
    if a.Receive? { assert s.t.box[c][0] in s.t.box[c]; }
  }

  lemma OtherStepLeaves(s: System, a: Step, c: Chan)
    requires Enabled(s, a) && IsCallers(a) && a.c != c && c in s.calls && c in s.t.box && TableOk(Apply(s, a))
    ensures
      var s' := Apply(s, a);
      && c in s'.calls && s'.calls[c] == s.calls[c] && c in s'.t.box && s'.t.box[c] == s.t.box[c]
      && s'.reader == s.reader && (Listed(s', c) <==> Listed(s, c))
  {
    var s' := Apply(s, a);
    assert a.c in s'.calls && s'.calls[a.c].id != s'.calls[c].id;
  }

  /** Another caller's step. */
  lemma OtherStepKeepsCall(s: System, a: Step, c: Chan)
    requires TableOk(s) && Enabled(s, a) && IsCallers(a) && a.c != c && c in s.calls && CallOk(s, c) && LateOk(s, c)
    requires TableOk(Apply(s, a))
    ensures CallOk(Apply(s, a), c) && LateOk(Apply(s, a), c)
  {
    OtherStepLeaves(s, a, c);
  }

  lemma ReaderKeepsCall(s: System, a: Step, c: Chan)
    requires TableOk(s) && Enabled(s, a) && !IsCallers(a) && !a.RejectAll?
    requires c in s.calls && CallOk(s, c) && LateOk(s, c)
    ensures var s' := Apply(s, a); c in s'.t.box && CallOk(s', c) && LateOk(s', c)
  {}

  lemma RejectAllKeepsCall(s: System, a: Step, c: Chan)
    requires TableOk(s) && Enabled(s, a) && a.RejectAll? && c in s.calls && CallOk(s, c) && LateOk(s, c)
    ensures var s' := Apply(s, a); c in s'.t.box && CallOk(s', c) && LateOk(s', c)
  {
    assert c in s.t.pending.Values <==> Listed(s, c);
  }

  lemma StepKeepsCall(s: System, a: Step, c: Chan)
    requires Inv(s) && Enabled(s, a) && c in Apply(s, a).calls && TableOk(Apply(s, a))
    ensures CallOk(Apply(s, a), c) && LateOk(Apply(s, a), c)
  {
    assert c in s.calls ==> CallOk(s, c) && LateOk(s, c);
    if IsCallers(a) {
      if a.c == c { OwnStepKeepsCall(s, a, c); } else { OtherStepKeepsCall(s, a, c); }
    } else if a.RejectAll? {
      RejectAllKeepsCall(s, a, c);
    } else {
      ReaderKeepsCall(s, a, c);
    }
  }

  lemma StepKeepsInv(s: System, a: Step)
    requires Inv(s) && Enabled(s, a)
    ensures Inv(Apply(s, a))
  {
    if IsCallers(a) { CallersKeepTable(s, a); } else { ReaderKeepsTable(s, a); }
    forall c | c in Apply(s, a).calls ensures CallOk(Apply(s, a), c) && LateOk(Apply(s, a), c) {
      StepKeepsCall(s, a, c);
    }
  }

  /** Every reachable table meets what `RejectPending` asks of it. */
  lemma InvAllowsRejection(s: System)
    requires Inv(s)
    ensures Distinct(s.t.pending) && s.t.pending.Values <= s.t.box.Keys
  {}

  lemma {:induction false} EveryRunKeepsInv(s: System, steps: seq<Step>)
    requires Inv(s) && Runs(s, steps)
    ensures Inv(After(s, steps))
    decreases |steps|
  {
    if steps != [] {
      StepKeepsInv(s, steps[0]);
      EveryRunKeepsInv(Apply(s, steps[0]), steps[1..]);
    }
  }

  // ------------------------------------------------------------- what callers get

  predicate Answered(s: System, c: Chan) {
    c in s.calls && s.calls[c].phase.Done? && s.calls[c].phase.outcome.Got?
  }

  /** In every run: a channel gets at most one value, a response a caller got has its own id, no send
      finds a full channel, and `rejectPending` never stops halfway. */
  lemma CallsGetTheirOwn(steps: seq<Step>, c: Chan)
    requires Runs(Initial(), steps) && c in After(Initial(), steps).calls
    ensures
      var s := After(Initial(), steps);
      && c in s.t.box && Values(s, c) <= 1
      && (Answered(s, c) && s.calls[c].phase.outcome.v.Response? ==> s.calls[c].phase.outcome.v.id == s.calls[c].id)
  {
    EveryRunKeepsInv(Initial(), steps);
    assert CallOk(After(Initial(), steps), c);
  }

  lemma NoSendBlocks(steps: seq<Step>, error: string)
    requires Runs(Initial(), steps)
    ensures
      var s := After(Initial(), steps);
      (s.reader.Sending? ==> Enabled(s, Send)) && (s.reader == Closing ==> Enabled(s, RejectAll(error)))
  {
    EveryRunKeepsInv(Initial(), steps);
    var s := After(Initial(), steps);
    if s.reader.Sending? { assert CallOk(s, s.reader.c); }
    forall id | id in s.t.pending ensures s.t.pending[id] in s.t.box && s.t.box[s.t.pending[id]] == [] {
      assert CallOk(s, s.t.pending[id]) && Listed(s, s.t.pending[id]);
    }
  }

  /** Steps the caller still has to take, at most. */
  function Rank(phase: Phase): nat {
    match phase
    case Numbered => 4
    case Registered => 3
    case Waiting => 2
    case Failing => 1
    case Cancelling => 1
    case Done(_) => 0
  }

  /** The caller's next step, when its channel is not empty. */
  function OwnStep(s: System, c: Chan): Step
    requires c in s.calls
  {
    match s.calls[c].phase
    case Numbered => Register(c)
    case Registered => Write(c, true)
    case Waiting => Receive(c)
    case _ => Forget(c)
  }

  /** Once the stream has ended, a call that entered the table before always has a next step of its own,
      which brings it closer to its end; nothing anyone else does takes that step away.  A call that
      entered the table later gets no value, ever. */
  lemma EarlyCallsFinish(steps: seq<Step>, c: Chan)
    requires Runs(Initial(), steps)
    requires
      var s := After(Initial(), steps);
      c in s.calls && s.reader == Stopped && !s.calls[c].phase.Done? && s.calls[c].phase != Numbered
    ensures
      var s := After(Initial(), steps);
      var a := OwnStep(s, c);
      && (!s.calls[c].late ==> Enabled(s, a) && Rank(Apply(s, a).calls[c].phase) < Rank(s.calls[c].phase))
      && (s.calls[c].phase == Waiting ==> (Enabled(s, Receive(c)) <==> !s.calls[c].late))
  {
    EveryRunKeepsInv(Initial(), steps);
    EarlyCallGoesOn(After(Initial(), steps), c);
  }

  lemma EarlyCallGoesOn(s: System, c: Chan)
    requires Inv(s) && c in s.calls && s.reader == Stopped && !s.calls[c].phase.Done? && s.calls[c].phase != Numbered
    ensures
      var a := OwnStep(s, c);
      && (!s.calls[c].late ==> Enabled(s, a) && Rank(Apply(s, a).calls[c].phase) < Rank(s.calls[c].phase))
      && (s.calls[c].phase == Waiting ==> (Enabled(s, Receive(c)) <==> !s.calls[c].late))
  {
    assert CallOk(s, c) && LateOk(s, c);
  }

  lemma OthersDoNotInterfere(s: System, a: Step, c: Chan)
    requires Inv(s) && Enabled(s, a) && c in s.calls && s.reader == Stopped && (IsCallers(a) ==> a.c != c)
    ensures
      var s' := Apply(s, a);
      c in s'.calls && s'.calls[c] == s.calls[c] && s'.t.box[c] == s.t.box[c] && s'.reader == Stopped
  {}

  /** A caller that finds the client not closed after it registered is in time. */
  lemma OpenMeansInTime(s: System, c: Chan)
    requires Inv(s) && Enabled(s, Register(c)) && !s.t.closed
    ensures !Apply(s, Register(c)).calls[c].late
  {}

  lemma {:induction false} LatenessIsFixed(s: System, steps: seq<Step>, c: Chan)
    requires Inv(s) && Runs(s, steps) && c in s.calls && s.calls[c].phase != Numbered
    ensures
      var s' := After(s, steps);
      && c in s'.calls && s'.calls[c].late == s.calls[c].late && s'.calls[c].phase != Numbered
      && (s.calls[c].late ==> !Answered(s', c))
    decreases |steps|
  {
    if steps != [] {
      StepFixesLateness(s, steps[0], c);
      StepKeepsInv(s, steps[0]);
      LatenessIsFixed(Apply(s, steps[0]), steps[1..], c);
    } else {
      assert CallOk(s, c) && LateOk(s, c);
    }
  }

  lemma StepFixesLateness(s: System, a: Step, c: Chan)
    requires Enabled(s, a) && c in s.calls && s.calls[c].phase != Numbered
    ensures
      var s' := Apply(s, a);
      c in s'.calls && s'.calls[c].late == s.calls[c].late && s'.calls[c].phase != Numbered
  {}

  /** A call can be late, and then waits for a value that never comes, although the client is closed. */
  lemma LateCallHangs()
    ensures
      var steps := [EndOfStream, RejectAll("EOF"), Begin(7), Register(7), Write(7, true)];
      && Runs(Initial(), steps)
      && var s := After(Initial(), steps);
         In(s, 7, Waiting) && s.t.closed && forall a :: Enabled(s, a) && IsCallers(a) && a.c == 7 ==> a == Cancel(7)
  {
    var s2 := ClosedAtOnce();
    var steps, t := Waits(s2, 7);
    steps := RunBy(Apply(Initial(), EndOfStream), RejectAll("EOF"), steps, t);
    steps := RunBy(Initial(), EndOfStream, steps, t);
  }

  lemma RunBy(s: System, a: Step, rest: seq<Step>, t: System) returns (steps: seq<Step>)
    requires Enabled(s, a) && Runs(Apply(s, a), rest) && After(Apply(s, a), rest) == t
    ensures steps == [a] + rest && Runs(s, steps) && After(s, steps) == t
  {
    steps := [a] + rest;
    assert steps[1..] == rest;
  }

  /** The stream ends before the first call. */
  lemma ClosedAtOnce() returns (s: System)
    ensures Enabled(Initial(), EndOfStream) && Enabled(Apply(Initial(), EndOfStream), RejectAll("EOF"))
    ensures s == Apply(Apply(Initial(), EndOfStream), RejectAll("EOF"))
    ensures s.t.closed && s.reader == Stopped && s.calls == map[] && s.t.box == map[]
  {
    s := Apply(Apply(Initial(), EndOfStream), RejectAll("EOF"));
  }

  lemma Waits(s: System, c: Chan) returns (steps: seq<Step>, t: System)
    requires s.t.closed && s.reader == Stopped && c !in s.calls && c !in s.t.box
    ensures steps == [Begin(c), Register(c), Write(c, true)] && Runs(s, steps) && t == After(s, steps)
    ensures In(t, c, Waiting) && t.t.closed && c in t.t.box && t.t.box[c] == []
  {
    var s1 := Apply(s, Begin(c));
    var s2 := Apply(s1, Register(c));
    t := Apply(s2, Write(c, true));
    steps := RunBy(s2, Write(c, true), [], t);
    steps := RunBy(s1, Register(c), steps, t);
    steps := RunBy(s, Begin(c), steps, t);
  }
}
