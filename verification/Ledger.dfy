/** The rows are what the trace says: each is what the statements on it, read in order, add up to. */
module Ledger {
  import opened Options
  import opened DataBridge

  /** The plan's state: what was written last. */
  function PlanOf(trace: seq<Event>): (x: PlanState) {
    if trace == [] then Draft
    else match trace[|trace| - 1].stmt
         case TryTransition(_, to) => to
         case SetPlan(to) => to
         case _ => PlanOf(trace[..|trace| - 1])
  }

  function PointerOf(trace: seq<Event>): (p: Option<Id>) {
    if trace == [] then None
    else match trace[|trace| - 1].stmt
         case PointAt(id) => Some(id)
         case _ => PointerOf(trace[..|trace| - 1])
  }

  function PlanEdgeOf(trace: seq<Event>): (p: Option<Id>) {
    if trace == [] then None
    else match trace[|trace| - 1].stmt
         case SetEdge(id) => Some(id)
         case _ => PlanEdgeOf(trace[..|trace| - 1])
  }

  /** Edge cluster `e`: inserted not ready, made ready, deleted. */
  function EdgeOf(trace: seq<Event>, e: Id): (r: Option<bool>) {
    if trace == [] then None
    else
      var before := EdgeOf(trace[..|trace| - 1], e);
      var stmt := trace[|trace| - 1].stmt;
      if stmt == InsertEdge(e) then Some(false)
      else if stmt == ReadyEdge(e) && before.Some? then Some(true)
      else if stmt == DeleteEdge(e) then None
      else before
  }

  /** Cutover `c`: inserted freezing with a deadline five minutes off, then moved from state to state. */
  function CutOf(trace: seq<Event>, c: Id): (r: Option<Cut>) {
    if trace == [] then None
    else
      var e := trace[|trace| - 1];
      NextCut(CutOf(trace[..|trace| - 1], c), e.stmt, e.now, c)
  }

  function NextCut(before: Option<Cut>, stmt: Stmt, now: nat, c: Id): (r: Option<Cut>) {
    if stmt == InsertCut(c) then Some(Cut(Freezing, now + 300000))
    else if before.Some? && ((stmt.SetCut? && stmt.id == c) || (stmt.FinishCut? && stmt.id == c)) then
      Some(Cut(stmt.cutState, before.value.deadline))
    else before
  }

  function ValidationOf(trace: seq<Event>, v: Id): (r: Option<Option<bool>>) {
    if trace == [] then None
    else
      var before := ValidationOf(trace[..|trace| - 1], v);
      var stmt := trace[|trace| - 1].stmt;
      if stmt == InsertValidation(v) then Some(None)
      else if stmt.RecordValidation? && stmt.id == v && before.Some? then Some(Some(stmt.passed))
      else before
  }

  /** Is this statement about stream `id`: named, or the one its run goes by? */
  predicate On(stmt: Stmt, read: Option<Id>, id: Id) {
    match stmt
    case SetStream(x, _) => x == id
    case SetLag(x, _, _) => x == id
    case SetReadStream(_) => read == Some(id)
    case SetReadLag(_, _) => read == Some(id)
    case _ => false
  }

  /** Stream `id`: inserted starting and caught up, then its state and its lag as last written. */
  function StreamOf(trace: seq<Event>, id: Id): (r: Option<Stream>) {
    if trace == [] then None
    else
      var e := trace[|trace| - 1];
      NextStream(StreamOf(trace[..|trace| - 1], id), e.stmt, e.read, id)
  }

  function NextStream(before: Option<Stream>, stmt: Stmt, read: Option<Id>, id: Id): (r: Option<Stream>) {
    if stmt == InsertStream(id) then Some(Stream(Starting, 0, 0))
    else if before.Some? && On(stmt, read, id) then Some(Rewritten(before.value, stmt))
    else before
  }

  function Rewritten(st: Stream, stmt: Stmt): (r: Stream) {
    match stmt
    case SetStream(_, state) => Stream(state, st.lagBytes, st.lagSeconds)
    case SetReadStream(state) => Stream(state, st.lagBytes, st.lagSeconds)
    case SetLag(_, bytes, seconds) => Stream(st.state, bytes, seconds)
    case SetReadLag(bytes, seconds) => Stream(st.state, bytes, seconds)
    case _ => st
  }

  function Look<V>(m: map<Id, V>, id: Id): (r: Option<V>) {
    if id in m then Some(m[id]) else None
  }

  ghost predicate PlanAgrees(s: State) {
    s.plan == PlanOf(s.trace) && s.pointer == PointerOf(s.trace) && s.edge == PlanEdgeOf(s.trace)
  }

  ghost predicate RowsAgree(s: State, id: Id) {
    && Look(s.edges, id) == EdgeOf(s.trace, id)
    && Look(s.cuts, id) == CutOf(s.trace, id)
    && Look(s.validations, id) == ValidationOf(s.trace, id)
    && Look(s.streams, id) == StreamOf(s.trace, id)
  }

  // ---- One statement ----

  lemma PlanStep(s: State, j: Id)
    requires PlanAgrees(s) && Enabled(s, Run(j)) && Succeeds(s, s.jobs[j], NextStmt(s, j))
    ensures PlanAgrees(RunOne(s, j))
  {
    PlanEffect(s, s.jobs[j], NextStmt(s, j));
    assert RunOne(s, j).trace[..|s.trace|] == s.trace;
  }

  lemma PlanEffect(s: State, job: Job, stmt: Stmt)
    ensures var t := Effect(s, job, stmt);
            && t.plan == (if stmt.TryTransition? || stmt.SetPlan? then stmt.to else s.plan)
            && t.pointer == (if stmt.PointAt? then Some(stmt.id) else s.pointer)
            && t.edge == (if stmt.SetEdge? then Some(stmt.id) else s.edge)
  {
  }

  lemma EdgeStep(s: State, j: Id, id: Id)
    requires Enabled(s, Run(j)) && Succeeds(s, s.jobs[j], NextStmt(s, j)) && Look(s.edges, id) == EdgeOf(s.trace, id)
    ensures Look(RunOne(s, j).edges, id) == EdgeOf(RunOne(s, j).trace, id)
  {
    assert RunOne(s, j).trace[..|s.trace|] == s.trace;
  }

  lemma CutStep(s: State, j: Id, id: Id)
    requires Enabled(s, Run(j)) && Succeeds(s, s.jobs[j], NextStmt(s, j)) && Look(s.cuts, id) == CutOf(s.trace, id)
    ensures Look(RunOne(s, j).cuts, id) == CutOf(RunOne(s, j).trace, id)
  {
    CutEffect(s, s.jobs[j], NextStmt(s, j), id);
    assert RunOne(s, j).trace[..|s.trace|] == s.trace;
  }

  lemma CutEffect(s: State, job: Job, stmt: Stmt, id: Id)
    ensures Look(Effect(s, job, stmt).cuts, id) == NextCut(Look(s.cuts, id), stmt, s.clock, id)
  {
    if stmt.SetCut? { CutStateEffect(s, stmt.id, stmt.cutState, id); }
    else if stmt.FinishCut? { CutStateEffect(s, stmt.id, stmt.cutState, id); }
    else if !stmt.InsertCut? { CutsUntouched(s, job, stmt); }
  }

  lemma CutsUntouched(s: State, job: Job, stmt: Stmt)
    requires !stmt.SetCut? && !stmt.FinishCut? && !stmt.InsertCut?
    ensures Effect(s, job, stmt).cuts == s.cuts
  {
  }

  lemma CutStateEffect(s: State, c: Id, state: CutState, id: Id)
    ensures Look(SetCutState(s, c, state).cuts, id)
         == if c == id && id in s.cuts then Some(Cut(state, s.cuts[id].deadline)) else Look(s.cuts, id)
  {
  }

  lemma ValidationStep(s: State, j: Id, id: Id)
    requires Enabled(s, Run(j)) && Succeeds(s, s.jobs[j], NextStmt(s, j))
    requires Look(s.validations, id) == ValidationOf(s.trace, id)
    ensures Look(RunOne(s, j).validations, id) == ValidationOf(RunOne(s, j).trace, id)
  {
    assert RunOne(s, j).trace[..|s.trace|] == s.trace;
  }

  lemma StreamStep(s: State, j: Id, id: Id)
    requires Enabled(s, Run(j)) && Succeeds(s, s.jobs[j], NextStmt(s, j))
    requires Look(s.streams, id) == StreamOf(s.trace, id)
    ensures Look(RunOne(s, j).streams, id) == StreamOf(RunOne(s, j).trace, id)
  {
    StreamEffect(s, s.jobs[j], NextStmt(s, j), id);
    assert RunOne(s, j).trace[..|s.trace|] == s.trace;
  }

  lemma StreamEffect(s: State, job: Job, stmt: Stmt, id: Id)
    ensures Look(Effect(s, job, stmt).streams, id) == NextStream(Look(s.streams, id), stmt, job.read, id)
  {
    if stmt.SetStream? { StateEffect(s, stmt.id, stmt.streamState, id); }
    else if stmt.SetReadStream? { if job.read.Some? { StateEffect(s, job.read.value, stmt.streamState, id); } }
    else if stmt.SetLag? { LagEffect(s, stmt.id, stmt.bytes, stmt.seconds, id); }
    else if stmt.SetReadLag? { if job.read.Some? { LagEffect(s, job.read.value, stmt.bytes, stmt.seconds, id); } }
    else if !stmt.InsertStream? { StreamsUntouched(s, job, stmt); }
  }

  lemma StreamsUntouched(s: State, job: Job, stmt: Stmt)
    requires !stmt.SetStream? && !stmt.SetReadStream? && !stmt.SetLag? && !stmt.SetReadLag? && !stmt.InsertStream?
    ensures Effect(s, job, stmt).streams == s.streams
  {
  }

  lemma StateEffect(s: State, x: Id, state: StreamState, id: Id)
    ensures Look(SetStreamState(s, x, state).streams, id)
         == if x == id && id in s.streams
            then Some(Stream(state, s.streams[id].lagBytes, s.streams[id].lagSeconds))
            else Look(s.streams, id)
  {
  }

  lemma LagEffect(s: State, x: Id, bytes: int, seconds: int, id: Id)
    ensures Look(SetStreamLag(s, x, bytes, seconds).streams, id)
         == if x == id && id in s.streams
            then Some(Stream(s.streams[id].state, bytes, seconds))
            else Look(s.streams, id)
  {
  }

  lemma StepAgrees(s: State, step: Step, id: Id)
    requires PlanAgrees(s) && RowsAgree(s, id) && Enabled(s, step)
    ensures PlanAgrees(Apply(s, step)) && RowsAgree(Apply(s, step), id)
  {
    if step.Run? && Succeeds(s, s.jobs[step.job], NextStmt(s, step.job)) {
      var j := step.job;
      PlanStep(s, j);
      EdgeStep(s, j, id);
      CutStep(s, j, id);
      ValidationStep(s, j, id);
      StreamStep(s, j, id);
    }
  }

  lemma {:induction false} RunAgrees(s: State, steps: seq<Step>, id: Id)
    requires PlanAgrees(s) && RowsAgree(s, id) && IsRun(s, steps)
    ensures PlanAgrees(After(s, steps)) && RowsAgree(After(s, steps), id)
    decreases |steps|
  {
    if steps != [] {
      StepAgrees(s, steps[0], id);
      RunAgrees(Apply(s, steps[0]), steps[1..], id);
    }
  }

  /** In every run, however its statements interleave: the plan's state and pointers, and every cluster,
      cutover, validation and stream row, are what the statements in the trace add up to. Statements that
      did not succeed, and runs that died, leave nothing. */
  lemma RowsAreTheTrace(steps: seq<Step>, id: Id)
    requires IsRun(INIT, steps)
    ensures PlanAgrees(After(INIT, steps)) && RowsAgree(After(INIT, steps), id)
  {
    RunAgrees(INIT, steps, id);
  }

  // ---- What a run goes on by ----

  /** Does the run go on, by the trace alone? `read` and `edge` are what it read from the plan. */
  predicate Guard(trace: seq<Event>, now: nat, read: Option<Id>, edge: Option<Id>, stmt: Stmt) {
    match stmt
    case TryTransition(from, _) => PlanOf(trace) == from
    case FoundPlan(state) => PlanOf(trace) == state
    case NeedsStream => read.Some?
    case NeedsEdge(ready) =>
      edge.Some? && var e := EdgeOf(trace, edge.value); e.Some? && (ready ==> e.value)
    case FoundProvisioning(e) => EdgeOf(trace, e) == Some(false)
    case FoundStreaming(id) => var st := StreamOf(trace, id); st.Some? && st.value.state == Streaming
    case FoundDraining(c) => var cut := CutOf(trace, c); cut.Some? && cut.value.state == Draining
    case SeeDrained => !StillLags(trace, read)
    case SeeLagging => StillLags(trace, read)
    case PastDeadline(c) => var cut := CutOf(trace, c); cut.Some? && cut.value.deadline < now
    case FoundRunning(v) => ValidationOf(trace, v) == Some(None)
    case _ => true
  }

  /** The stream the run goes by has a lag left, in bytes or in seconds. */
  predicate StillLags(trace: seq<Event>, read: Option<Id>) {
    && read.Some?
    && var st := StreamOf(trace, read.value);
    st.Some? && (st.value.lagBytes > 0 || st.value.lagSeconds > 0)
  }

  /** The row a statement looks at. */
  function LooksAt(read: Option<Id>, edge: Option<Id>, stmt: Stmt): (id: Id) {
    match stmt
    case NeedsEdge(_) => if edge.Some? then edge.value else 0
    case FoundProvisioning(e) => e
    case FoundStreaming(id) => id
    case FoundDraining(c) => c
    case PastDeadline(c) => c
    case FoundRunning(v) => v
    case _ => if read.Some? then read.value else 0
  }

  lemma GuardOnRows(s: State, job: Job, stmt: Stmt)
    requires PlanAgrees(s) && RowsAgree(s, LooksAt(job.read, job.edge, stmt))
    requires stmt != FoundNoCut && !stmt.FoundCut?
    ensures Succeeds(s, job, stmt) <==> Guard(s.trace, s.clock, job.read, job.edge, stmt)
  {
  }

  /** In every reachable state, whatever is under way: a run's next statement lets it go on if and only if
      the trace says so. */
  lemma RunsGoOnByTheTrace(steps: seq<Step>, j: Id)
    requires IsRun(INIT, steps) && Enabled(After(INIT, steps), Run(j))
    requires NextStmt(After(INIT, steps), j) != FoundNoCut && !NextStmt(After(INIT, steps), j).FoundCut?
    ensures var s := After(INIT, steps);
            var job := s.jobs[j];
            Succeeds(s, job, NextStmt(s, j)) <==> Guard(s.trace, s.clock, job.read, job.edge, NextStmt(s, j))
  {
    var s := After(INIT, steps);
    RowsAreTheTrace(steps, LooksAt(s.jobs[j].read, s.jobs[j].edge, NextStmt(s, j)));
    GuardOnRows(s, s.jobs[j], NextStmt(s, j));
  }

  ghost predicate LatestOf(trace: seq<Event>, c: Id) {
    && CutOf(trace, c).Some?
    && forall d: Id | CutOf(trace, d).Some? :: CutOf(trace, d).value.deadline <= CutOf(trace, c).value.deadline
  }

  /** A roll-back goes on with the cutover inserted last. */
  lemma LatestByTheTrace(steps: seq<Step>, c: Id)
    requires IsRun(INIT, steps)
    ensures Latest(After(INIT, steps).cuts, c) <==> LatestOf(After(INIT, steps).trace, c)
  {
    var s := After(INIT, steps);
    forall d: Id ensures CutOf(s.trace, d) == if d in s.cuts then Some(s.cuts[d]) else None {
      RowsAreTheTrace(steps, d);
    }
    if LatestOf(s.trace, c) {
      forall d | d in s.cuts ensures s.cuts[d].deadline <= s.cuts[c].deadline { assert CutOf(s.trace, d).Some?; }
    }
  }

  /** And one that touches no cutover goes on only if there is none. */
  lemma NoCutByTheTrace(steps: seq<Step>, c: Id)
    requires IsRun(INIT, steps) && After(INIT, steps).cuts == map[]
    ensures CutOf(After(INIT, steps).trace, c) == None
  {
    RowsAreTheTrace(steps, c);
  }

  /** What an event records: the plan before and after it, the plan's stream, the stream its run goes by and
      that stream's row, all as the trace before it has them. */
  ghost predicate Recorded(trace: seq<Event>, k: nat)
    requires k < |trace|
  {
    var e, before := trace[k], trace[..k];
    && e.before == PlanOf(before) && e.after == PlanOf(trace[..k + 1]) && e.pointer == PointerOf(before)
    && e.seen == (if e.read.Some? then StreamOf(before, e.read.value) else None)
  }

  lemma StepRecords(s: State, step: Step)
    requires IsRecorded(s) && Enabled(s, step) && PlanAgrees(s) && forall id :: RowsAgree(s, id)
    ensures IsRecorded(Apply(s, step))
  {
    var t := Apply(s, step);
    forall k | 0 <= k < |t.trace| ensures Recorded(t.trace, k) {
      if k < |s.trace| {
        assert Recorded(s.trace, k);
        assert t.trace[..k] == s.trace[..k] && t.trace[..k + 1] == s.trace[..k + 1];
      } else {
        NewIsRecorded(s, step.job);
      }
    }
  }

  ghost predicate IsRecorded(s: State) {
    forall k | 0 <= k < |s.trace| :: Recorded(s.trace, k)
  }

  lemma NewIsRecorded(s: State, j: Id)
    requires Enabled(s, Run(j)) && Succeeds(s, s.jobs[j], NextStmt(s, j))
    requires PlanAgrees(s) && (s.jobs[j].read.Some? ==> RowsAgree(s, s.jobs[j].read.value))
    ensures Recorded(RunOne(s, j).trace, |s.trace|)
  {
    var t := RunOne(s, j);
    assert t.trace[..|s.trace|] == s.trace && t.trace[..|s.trace| + 1] == t.trace;
    PlanStep(s, j);
  }

  lemma {:induction false} RunRecords(s: State, steps: seq<Step>)
    requires IsRecorded(s) && IsRun(s, steps) && PlanAgrees(s) && forall id :: RowsAgree(s, id)
    ensures IsRecorded(After(s, steps))
    decreases |steps|
  {
    if steps != [] {
      StepRecords(s, steps[0]);
      forall id ensures RowsAgree(Apply(s, steps[0]), id) { StepAgrees(s, steps[0], id); }
      StepAgrees(s, steps[0], 0);
      RunRecords(Apply(s, steps[0]), steps[1..]);
    }
  }

  lemma EventsAreRecorded(steps: seq<Step>, k: nat)
    requires IsRun(INIT, steps) && k < |After(INIT, steps).trace|
    ensures Recorded(After(INIT, steps).trace, k)
  {
    RunRecords(INIT, steps);
  }
}
