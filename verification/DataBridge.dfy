/** One migration plan and everything that may act on it at the same time: any number of stage jobs
    and any number of reconciler passes. Each of these is a straight-line list of inventory
    statements; a statement is atomic, and statements of different runs interleave freely. Where the
    code branches on an outcome (fake or real mode, an applied or a refused CR, drained or not) each
    branch is its own list, and a statement that reads the condition stops the run when it does not hold. */
module DataBridge {
  import opened Options

  datatype PlanState =
    | Draft | Discovered | Assessed | Provisioning | Provisioned | FullLoading | Loaded | CdcStreaming
    | Validating | Validated | CutoverInProgress | CutoverComplete | RolledBack | Failed

  datatype CutState = Freezing | Draining | Switching | Complete | CutFailed | CutRolledBack

  datatype StreamState = Starting | Streaming | Stopped

  datatype Stream = Stream(state: StreamState, lagBytes: int, lagSeconds: int)

  datatype Cut = Cut(state: CutState, deadline: nat)

  /** Rows are named by the run that inserts them, which stands for their fresh ids. */
  type Id = nat

  datatype Stmt =
    | TryTransition(from: PlanState, to: PlanState)
    | SetPlan(to: PlanState)
    | FoundPlan(state: PlanState)
    | ReadPlan
    | NeedsStream
    | NeedsEdge(ready: bool)
    | InsertEdge(id: Id)
    | SetEdge(id: Id)
    | ReadyEdge(id: Id)
    | DeleteEdge(id: Id)
    | FoundProvisioning(id: Id)
    | InsertStream(id: Id)
    | PointAt(id: Id)
    | SetStream(id: Id, streamState: StreamState)
    | SetReadStream(streamState: StreamState)
    | SetLag(id: Id, bytes: int, seconds: int)
    | SetReadLag(bytes: int, seconds: int)
    | FoundStreaming(id: Id)
    | InsertCut(id: Id)
    | SetCut(id: Id, cutState: CutState)
    | FinishCut(id: Id, cutState: CutState)
    | FoundCut(id: Id)
    | FoundDraining(id: Id)
    | SeeDrained
    | SeeLagging
    | PastDeadline(id: Id)
    | TornDown
    | Saw(good: bool)
    | FoundNoCut
    | InsertValidation(id: Id)
    | FoundRunning(id: Id)
    | RecordValidation(id: Id, passed: bool)

  // `Saw` is what Kubernetes reported of the resource the run looks after: a ready cluster, a Job that
  // succeeded or failed. It is up to the environment.

  /** What can be started: the stage jobs, then the reconciler's passes over one row. */
  datatype Kind =
    | Discover
    | Assess
    | ProvisionFake
    | ProvisionReal
    | ProvisionRefused
    | FullLoadInline
    | FullLoadBatch
    | StartCdcFake
    | StartCdcReal
    | StopCdc
    | RestartCdcFake
    | RestartCdcReal
    | ValidateInline
    | ValidateBatch
    | ValidateAdvisory
    | CutoverFake
    | CutoverReal
    | RollbackCut(cut: Id)
    | RollbackNoCut
    | EdgeReady(edge: Id)
    | LoadSucceeded
    | LoadFailed
    | LagMeasured(stream: Id, bytes: int, seconds: int)
    | DrainComplete(cut: Id)
    | DrainExpired(cut: Id)
    | ValidationPassed(validation: Id)
    | ValidationFailed(validation: Id)

  const MIB := 1024 * 1024
  const DRAIN_MS := 5 * 60 * 1000

  function Program(kind: Kind, self: Id): (r: seq<Stmt>) {
    match kind
    case Discover => [TryTransition(Draft, Discovered)]
    case Assess => [SetPlan(Assessed)]
    case ProvisionFake =>
      [TryTransition(Assessed, Provisioning), InsertEdge(self), SetEdge(self), ReadyEdge(self), SetPlan(Provisioned)]
    case ProvisionReal => [TryTransition(Assessed, Provisioning), InsertEdge(self), SetEdge(self)]
    case ProvisionRefused =>
      [TryTransition(Assessed, Provisioning), InsertEdge(self), SetEdge(self), DeleteEdge(self), SetPlan(Assessed)]
    case FullLoadInline => [SetPlan(FullLoading), SetPlan(Loaded)]
    case FullLoadBatch => [SetPlan(FullLoading)]
    case StartCdcFake =>
      [TryTransition(Loaded, CdcStreaming), InsertStream(self), PointAt(self), SetStream(self, Streaming),
       SetLag(self, 512 * MIB, 45)]
    case StartCdcReal =>
      [TryTransition(Loaded, CdcStreaming), InsertStream(self), PointAt(self), SetStream(self, Streaming)]
    case StopCdc => [ReadPlan, SetReadStream(Stopped)]
    case RestartCdcFake => [ReadPlan, NeedsStream, SetReadStream(Streaming), SetReadLag(256 * MIB, 30)]
    case RestartCdcReal => [ReadPlan, NeedsStream, SetReadStream(Streaming)]
    case ValidateInline =>
      [SetPlan(Validating), InsertValidation(self), RecordValidation(self, true), SetPlan(Validated)]
    case ValidateBatch => [ReadPlan, SetPlan(Validating), InsertValidation(self), NeedsEdge(true)]
    case ValidateAdvisory =>
      [ReadPlan, SetPlan(Validating), InsertValidation(self), NeedsEdge(true), RecordValidation(self, true),
       SetPlan(Validated)]
    case CutoverFake =>
      [ReadPlan, NeedsEdge(false), TryTransition(Validated, CutoverInProgress), InsertCut(self),
       SetCut(self, Switching), FinishCut(self, Complete), SetPlan(CutoverComplete), SetReadStream(Stopped)]
    case CutoverReal =>
      [ReadPlan, NeedsEdge(false), TryTransition(Validated, CutoverInProgress), InsertCut(self),
       SetCut(self, Draining)]
    case RollbackCut(c) => [FoundCut(c), FinishCut(c, CutRolledBack), SetPlan(RolledBack)]
    case RollbackNoCut => [FoundNoCut, SetPlan(RolledBack)]
    case EdgeReady(e) => [FoundProvisioning(e), Saw(true), ReadyEdge(e), SetPlan(Provisioned)]
    case LoadSucceeded => [FoundPlan(FullLoading), Saw(true), SetPlan(Loaded)]
    case LoadFailed => [FoundPlan(FullLoading), Saw(false), SetPlan(Failed)]
    case LagMeasured(st, b, sec) => [FoundStreaming(st), SetLag(st, b, sec)]
    case DrainComplete(c) =>
      [FoundDraining(c), ReadPlan, SeeDrained, TornDown, SetCut(c, Switching), FinishCut(c, Complete),
       SetPlan(CutoverComplete), SetReadStream(Stopped)]
    case DrainExpired(c) =>
      [FoundDraining(c), ReadPlan, SeeLagging, PastDeadline(c), FinishCut(c, CutFailed), SetPlan(Validated)]
    case ValidationPassed(v) => [FoundRunning(v), Saw(true), RecordValidation(v, true), SetPlan(Validated)]
    case ValidationFailed(v) => [FoundRunning(v), Saw(false), RecordValidation(v, false), SetPlan(Failed)]
  }

  /** `at[i]`: where in the trace the run's `i`-th statement is; the next one is number `|at|`.
      `read`, `edge`: the stream and the edge cluster the plan pointed at when the run read it. */
  datatype Job = Job(kind: Kind, at: seq<nat>, alive: bool, read: Option<Id>, edge: Option<Id>)

  function NewJob(kind: Kind): Job {
    Job(kind, [], true, None, None)
  }

  /** A statement that took effect, with the plan's state around it. `pointer`: the stream the plan pointed
      at; `read`: the stream the run goes by; `seen`: that stream's row. */
  datatype Event = Event(
    job: Id, pc: nat, stmt: Stmt, before: PlanState, after: PlanState, now: nat,
    pointer: Option<Id>, read: Option<Id>, seen: Option<Stream>)

  /** `pointer`, `edge`: the plan's `cdc_stream_id` and `edge_cluster_id`. `edges[e]`: is it ready.
      `validations[v]`: its result, once there is one. */
  datatype State = State(
    plan: PlanState, pointer: Option<Id>, edge: Option<Id>, edges: map<Id, bool>, streams: map<Id, Stream>,
    cuts: map<Id, Cut>, validations: map<Id, Option<bool>>, jobs: seq<Job>, clock: nat, trace: seq<Event>)

  const INIT := State(Draft, None, None, map[], map[], map[], map[], [], 0, [])

  /** `lag_seconds <= 0 && lag_bytes <= 0`, or no stream to drain. */
  predicate Drained(stream: Option<Stream>) {
    stream.None? || (stream.value.lagSeconds <= 0 && stream.value.lagBytes <= 0)
  }

  function Look(s: State, job: Job): (r: Option<Stream>) {
    if job.read.Some? && job.read.value in s.streams then Some(s.streams[job.read.value]) else None
  }

  /** Does the run go on past this statement? */
  /** No cutover was inserted after this one; the deadline is a fixed time after the insert. */
  predicate Latest(cuts: map<Id, Cut>, id: Id) {
    id in cuts && forall c | c in cuts :: cuts[c].deadline <= cuts[id].deadline
  }

  predicate Succeeds(s: State, job: Job, stmt: Stmt) {
    match stmt
    case TryTransition(from, _) => s.plan == from
    case FoundPlan(state) => s.plan == state
    case NeedsStream => job.read.Some?
    case NeedsEdge(ready) => job.edge.Some? && job.edge.value in s.edges && (ready ==> s.edges[job.edge.value])
    case FoundProvisioning(id) => id in s.edges && !s.edges[id]
    case FoundStreaming(id) => id in s.streams && s.streams[id].state == Streaming
    case FoundCut(id) => Latest(s.cuts, id)
    case FoundNoCut => s.cuts == map[]
    case FoundDraining(id) => id in s.cuts && s.cuts[id].state == Draining
    case SeeDrained => Drained(Look(s, job))
    case SeeLagging => !Drained(Look(s, job))
    case PastDeadline(id) => id in s.cuts && s.cuts[id].deadline < s.clock
    case FoundRunning(id) => id in s.validations && s.validations[id] == None
    case _ => true
  }

  function SetStreamState(s: State, id: Id, state: StreamState): State {
    if id in s.streams then s.(streams := s.streams[id := s.streams[id].(state := state)]) else s
  }

  function SetStreamLag(s: State, id: Id, bytes: int, seconds: int): State {
    if id !in s.streams then s
    else s.(streams := s.streams[id := s.streams[id].(lagBytes := bytes, lagSeconds := seconds)])
  }

  function SetCutState(s: State, id: Id, state: CutState): State {
    if id in s.cuts then s.(cuts := s.cuts[id := s.cuts[id].(state := state)]) else s
  }

  /** The rows after the statement; jobs and trace are not touched here. */
  function Effect(s: State, job: Job, stmt: Stmt): (t: State)
    ensures t.jobs == s.jobs && t.trace == s.trace && t.clock == s.clock
  {
    match stmt
    case TryTransition(_, to) => s.(plan := to)
    case SetPlan(to) => s.(plan := to)
    case InsertEdge(id) => s.(edges := s.edges[id := false])
    case SetEdge(id) => s.(edge := Some(id))
    case ReadyEdge(id) => if id in s.edges then s.(edges := s.edges[id := true]) else s
    case DeleteEdge(id) => s.(edges := s.edges - {id})
    case InsertStream(id) => s.(streams := s.streams[id := Stream(Starting, 0, 0)])
    case PointAt(id) => s.(pointer := Some(id))
    case SetStream(id, state) => SetStreamState(s, id, state)
    case SetReadStream(state) => if job.read.Some? then SetStreamState(s, job.read.value, state) else s
    case SetLag(id, b, sec) => SetStreamLag(s, id, b, sec)
    case SetReadLag(b, sec) => if job.read.Some? then SetStreamLag(s, job.read.value, b, sec) else s
    case InsertCut(id) => s.(cuts := s.cuts[id := Cut(Freezing, s.clock + DRAIN_MS)])
    case SetCut(id, state) => SetCutState(s, id, state)
    case FinishCut(id, state) => SetCutState(s, id, state)
    case InsertValidation(id) => s.(validations := s.validations[id := None])
    case RecordValidation(id, passed) =>
      if id in s.validations then s.(validations := s.validations[id := Some(passed)]) else s
    case _ => s
  }

  datatype Step = Launch(kind: Kind) | Run(job: Id) | Abort(job: Id) | Clock(to: nat)

  predicate Enabled(s: State, step: Step) {
    match step
    case Launch(_) => true
    case Run(j) => j < |s.jobs| && s.jobs[j].alive && |s.jobs[j].at| < |Program(s.jobs[j].kind, j)|
    case Abort(j) => j < |s.jobs|
    case Clock(to) => s.clock <= to
  }

  function NextStmt(s: State, j: Id): (r: Stmt)
    requires Enabled(s, Run(j))
  {
    Program(s.jobs[j].kind, j)[|s.jobs[j].at|]
  }

  /** One statement of run `j`. */
  function RunOne(s: State, j: Id): (t: State)
    requires Enabled(s, Run(j))
  {
    var job, stmt := s.jobs[j], NextStmt(s, j);
    if Succeeds(s, job, stmt) then
      var t := Effect(s, job, stmt);
      var looks := stmt == ReadPlan;
      var job' := job.(
        at := job.at + [|s.trace|],
        read := if looks then s.pointer else job.read,
        edge := if looks then s.edge else job.edge);
      t.(jobs := s.jobs[j := job'],
         trace := s.trace + [Event(j, |job.at|, stmt, s.plan, t.plan, s.clock, s.pointer, job.read, Look(s, job))])
    else s.(jobs := s.jobs[j := job.(alive := false)])
  }

  /** A stage job may also die between statements: a failed query, a refused CR, a restart. */
  function Apply(s: State, step: Step): (t: State)
    requires Enabled(s, step)
  {
    match step
    case Launch(kind) => s.(jobs := s.jobs + [NewJob(kind)])
    case Run(j) => RunOne(s, j)
    case Abort(j) => s.(jobs := s.jobs[j := s.jobs[j].(alive := false)])
    case Clock(to) => s.(clock := to)
  }

  predicate IsRun(s: State, steps: seq<Step>)
    decreases |steps|
  {
    steps == [] || (Enabled(s, steps[0]) && IsRun(Apply(s, steps[0]), steps[1..]))
  }

  function After(s: State, steps: seq<Step>): (t: State)
    requires IsRun(s, steps)
    decreases |steps|
  {
    if steps == [] then s else After(Apply(s, steps[0]), steps[1..])
  }

  // ---- Conservation: rows inserted against visits to the state that pays for them ----

  datatype Token = EdgeToken | StreamToken | CutToken

  /** The plan state a row of this sort is paid for with. */
  function Price(token: Token): PlanState {
    match token case EdgeToken => Assessed case StreamToken => Loaded case CutToken => Validated
  }

  predicate Spends(stmt: Stmt, token: Token) {
    match token
    case EdgeToken => stmt.InsertEdge?
    case StreamToken => stmt.InsertStream?
    case CutToken => stmt.InsertCut?
  }

  predicate Wins(stmt: Stmt, token: Token) {
    stmt.TryTransition? && stmt.from == Price(token)
  }

  function One(b: bool): nat {
    if b then 1 else 0
  }

  function Inserted(trace: seq<Event>, token: Token): (n: nat) {
    if trace == [] then 0
    else Inserted(trace[..|trace| - 1], token) + One(Spends(trace[|trace| - 1].stmt, token))
  }

  function Won(trace: seq<Event>, token: Token): (n: nat) {
    if trace == [] then 0
    else Won(trace[..|trace| - 1], token) + One(Wins(trace[|trace| - 1].stmt, token))
  }

  /** How often the plan moved into `x` from another state. */
  function Entries(trace: seq<Event>, x: PlanState): (n: nat) {
    if trace == [] then 0
    else
      var e := trace[|trace| - 1];
      Entries(trace[..|trace| - 1], x) + One(e.before != x && e.after == x)
  }

  /** Run `j` has won its transition and inserts next. */
  predicate Holds(job: Job, j: Id, token: Token) {
    job.alive && |job.at| < |Program(job.kind, j)| && Spends(Program(job.kind, j)[|job.at|], token)
  }

  function Holders(jobs: seq<Job>, token: Token): (n: nat) {
    if jobs == [] then 0
    else Holders(jobs[..|jobs| - 1], token) + One(Holds(jobs[|jobs| - 1], |jobs| - 1, token))
  }

  /** Every insert in the catalogue comes right after the transition that pays for it. */
  lemma InsertsFollowWins(kind: Kind, j: Id, p: nat, token: Token)
    requires p < |Program(kind, j)| && Spends(Program(kind, j)[p], token)
    ensures p > 0 && Wins(Program(kind, j)[p - 1], token)
  {
  }

  lemma TransitionsLeave(kind: Kind, j: Id, p: nat)
    requires p < |Program(kind, j)| && Program(kind, j)[p].TryTransition?
    ensures Program(kind, j)[p].from != Program(kind, j)[p].to
  {
  }

  lemma {:induction false} HoldersUpdate(jobs: seq<Job>, j: Id, job: Job, token: Token)
    requires j < |jobs|
    ensures Holders(jobs[j := job], token) + One(Holds(jobs[j], j, token))
         == Holders(jobs, token) + One(Holds(job, j, token))
  {
    var n := |jobs| - 1;
    if j == n {
      assert jobs[j := job][..n] == jobs[..n];
    } else {
      assert jobs[j := job][..n] == jobs[..n][j := job];
      HoldersUpdate(jobs[..n], j, job, token);
    }
  }

  ghost predicate Balanced(s: State, token: Token) {
    && Inserted(s.trace, token) + Holders(s.jobs, token) <= Won(s.trace, token)
    && Won(s.trace, token) + One(s.plan == Price(token)) <= Entries(s.trace, Price(token))
  }

  /** A statement that takes effect turns a win into a holder, or a holder into a row. */
  lemma StatementKeepsHolders(s: State, j: Id, token: Token)
    requires Enabled(s, Run(j)) && Succeeds(s, s.jobs[j], NextStmt(s, j))
    requires Inserted(s.trace, token) + Holders(s.jobs, token) <= Won(s.trace, token)
    ensures var t := RunOne(s, j); Inserted(t.trace, token) + Holders(t.jobs, token) <= Won(t.trace, token)
  {
    var t := RunOne(s, j);
    var p := |s.jobs[j].at|;
    HoldersUpdate(s.jobs, j, t.jobs[j], token);
    assert t.trace[..|s.trace|] == s.trace;
    assert Holds(s.jobs[j], j, token) == Spends(NextStmt(s, j), token);
    if Holds(t.jobs[j], j, token) {
      InsertsFollowWins(s.jobs[j].kind, j, p + 1, token);
      assert Wins(NextStmt(s, j), token);
    }
  }

  /** A win leaves the state it pays with, and only an entry can bring the plan back. */
  lemma StatementKeepsEntries(s: State, j: Id, token: Token)
    requires Enabled(s, Run(j)) && Succeeds(s, s.jobs[j], NextStmt(s, j))
    requires Won(s.trace, token) + One(s.plan == Price(token)) <= Entries(s.trace, Price(token))
    ensures var t := RunOne(s, j); Won(t.trace, token) + One(t.plan == Price(token)) <= Entries(t.trace, Price(token))
  {
    var t := RunOne(s, j);
    assert t.trace[..|s.trace|] == s.trace;
    if NextStmt(s, j).TryTransition? { TransitionsLeave(s.jobs[j].kind, j, |s.jobs[j].at|); }
  }

  lemma StepKeepsBalance(s: State, step: Step, token: Token)
    requires Balanced(s, token) && Enabled(s, step)
    ensures Balanced(Apply(s, step), token)
  {
    match step
    case Launch(kind) => LaunchHoldsNothing(s.jobs, kind, token);
    case Run(j) =>
      if Succeeds(s, s.jobs[j], NextStmt(s, j)) {
        StatementKeepsHolders(s, j, token);
        StatementKeepsEntries(s, j, token);
      } else {
        DeathFreesHolders(s.jobs, j, token);
      }
    case Abort(j) => DeathFreesHolders(s.jobs, j, token);
    case Clock(_) =>
  }

  lemma LaunchHoldsNothing(jobs: seq<Job>, kind: Kind, token: Token)
    ensures Holders(jobs + [NewJob(kind)], token) == Holders(jobs, token)
  {
    var j := |jobs|;
    assert (jobs + [NewJob(kind)])[..j] == jobs;
    if Holds(NewJob(kind), j, token) { InsertsFollowWins(kind, j, 0, token); }
  }

  lemma DeathFreesHolders(jobs: seq<Job>, j: Id, token: Token)
    requires j < |jobs|
    ensures Holders(jobs[j := jobs[j].(alive := false)], token) <= Holders(jobs, token)
  {
    HoldersUpdate(jobs, j, jobs[j].(alive := false), token);
  }

  lemma {:induction false} RunKeepsBalance(s: State, steps: seq<Step>, token: Token)
    requires Balanced(s, token) && IsRun(s, steps)
    ensures Balanced(After(s, steps), token)
    decreases |steps|
  {
    if steps != [] {
      StepKeepsBalance(s, steps[0], token);
      RunKeepsBalance(Apply(s, steps[0]), steps[1..], token);
    }
  }

  /** However many duplicate requests race: the edge clusters, CDC streams and cutovers ever inserted
      never exceed the plan's entries into `assessed`, `loaded` and `validated`. One visit, one winner. */
  lemma InsertsArePaidFor(steps: seq<Step>, token: Token)
    requires IsRun(INIT, steps)
    ensures var s := After(INIT, steps);
            Inserted(s.trace, token) <= Won(s.trace, token) <= Entries(s.trace, Price(token))
  {
    RunKeepsBalance(INIT, steps, token);
  }

  // ---- Order: what must have happened before the plan moves ----

  /** Each run's statements appear in the trace once, in program order; and each event is some run's. */
  ghost predicate JobTraced(s: State, j: Id)
    requires j < |s.jobs|
  {
    var job := s.jobs[j];
    && |job.at| <= |Program(job.kind, j)|
    && forall i | 0 <= i < |job.at| ::
         && job.at[i] < |s.trace|
         && s.trace[job.at[i]].job == j
         && s.trace[job.at[i]].pc == i
         && s.trace[job.at[i]].stmt == Program(job.kind, j)[i]
         && (i > 0 ==> job.at[i - 1] < job.at[i])
  }

  ghost predicate EventTraced(s: State, k: nat)
    requires k < |s.trace|
  {
    var e := s.trace[k];
    e.job < |s.jobs| && e.pc < |s.jobs[e.job].at| && s.jobs[e.job].at[e.pc] == k
  }

  /** The cutover row `c` was inserted at trace position `i`. */
  predicate InsertedAt(trace: seq<Event>, i: int, c: Id) {
    0 <= i < |trace| && trace[i].stmt == InsertCut(c)
  }

  /** Statements that read the rows record what they saw, and that it was true. */
  ghost predicate EventTrue(trace: seq<Event>, k: nat)
    requires k < |trace|
  {
    var e := trace[k];
    && (e.stmt == SeeDrained ==> Drained(e.seen))
    && (e.stmt == SeeLagging ==> !Drained(e.seen))
    && (e.stmt.FoundDraining? ==> exists i :: i < k && InsertedAt(trace, i, e.stmt.id))
    && (e.stmt.PastDeadline? ==>
          exists i :: i < k && InsertedAt(trace, i, e.stmt.id) && trace[i].now + DRAIN_MS < e.now)
  }

  ghost predicate CutTraced(s: State, c: Id)
    requires c in s.cuts
  {
    exists i :: InsertedAt(s.trace, i, c) && s.cuts[c].deadline == s.trace[i].now + DRAIN_MS
  }

  ghost predicate Traced(s: State) {
    && (forall j | 0 <= j < |s.jobs| :: JobTraced(s, j))
    && (forall k | 0 <= k < |s.trace| :: EventTraced(s, k))
    && (forall k | 0 <= k < |s.trace| :: EventTrue(s.trace, k))
    && (forall c | c in s.cuts :: CutTraced(s, c))
  }

  lemma EventStaysTrue(trace: seq<Event>, e: Event, k: nat)
    requires k < |trace| && EventTrue(trace, k)
    ensures EventTrue(trace + [e], k)
  {
    var longer := trace + [e];
    assert longer[k] == trace[k];
    if trace[k].stmt.FoundDraining? {
      var i :| i < k && InsertedAt(trace, i, trace[k].stmt.id);
      assert InsertedAt(longer, i, trace[k].stmt.id);
    }
    if trace[k].stmt.PastDeadline? {
      var i :| i < k && InsertedAt(trace, i, trace[k].stmt.id) && trace[i].now + DRAIN_MS < trace[k].now;
      assert InsertedAt(longer, i, trace[k].stmt.id);
    }
  }

  lemma NewEventTrue(s: State, j: Id)
    requires Traced(s) && Enabled(s, Run(j)) && Succeeds(s, s.jobs[j], NextStmt(s, j))
    ensures EventTrue(RunOne(s, j).trace, |s.trace|)
  {
    var stmt := NextStmt(s, j);
    if stmt.FoundDraining? || stmt.PastDeadline? {
      assert CutTraced(s, stmt.id);
      CutEventTrue(s, RunOne(s, j).trace[|s.trace|], stmt.id);
    }
  }

  /** An event that goes by a cutover row which is there. */
  lemma CutEventTrue(s: State, e: Event, c: Id)
    requires c in s.cuts && CutTraced(s, c)
    requires e.stmt == FoundDraining(c) || (e.stmt == PastDeadline(c) && s.cuts[c].deadline < e.now)
    ensures EventTrue(s.trace + [e], |s.trace|)
  {
    var i :| InsertedAt(s.trace, i, c) && s.cuts[c].deadline == s.trace[i].now + DRAIN_MS;
    assert InsertedAt(s.trace + [e], i, c);
  }

  /** Only an insert adds a cutover, and none moves a deadline. */
  lemma DeadlinesStay(s: State, job: Job, stmt: Stmt, c: Id)
    requires c in Effect(s, job, stmt).cuts && stmt != InsertCut(c)
    ensures c in s.cuts && Effect(s, job, stmt).cuts[c].deadline == s.cuts[c].deadline
  {
  }

  lemma CutsStayTraced(s: State, j: Id, c: Id)
    requires Traced(s) && Enabled(s, Run(j)) && Succeeds(s, s.jobs[j], NextStmt(s, j))
    requires c in RunOne(s, j).cuts
    ensures CutTraced(RunOne(s, j), c)
  {
    var t := RunOne(s, j);
    var stmt := NextStmt(s, j);
    if stmt == InsertCut(c) {
      assert InsertedAt(t.trace, |s.trace|, c);
    } else {
      DeadlinesStay(s, s.jobs[j], stmt, c);
      assert CutTraced(s, c);
      StillTraced(s, t, c);
    }
  }

  lemma StillTraced(s: State, t: State, c: Id)
    requires c in s.cuts && c in t.cuts && t.cuts[c].deadline == s.cuts[c].deadline
    requires s.trace <= t.trace && CutTraced(s, c)
    ensures CutTraced(t, c)
  {
    var i :| InsertedAt(s.trace, i, c) && s.cuts[c].deadline == s.trace[i].now + DRAIN_MS;
    assert InsertedAt(t.trace, i, c);
  }

  lemma JobsStayTraced(s: State, j: Id)
    requires Traced(s) && Enabled(s, Run(j)) && Succeeds(s, s.jobs[j], NextStmt(s, j))
    ensures var t := RunOne(s, j);
            && (forall i | 0 <= i < |t.jobs| :: JobTraced(t, i))
            && (forall k | 0 <= k < |t.trace| :: EventTraced(t, k))
  {
    var t := RunOne(s, j);
    forall i | 0 <= i < |t.jobs| ensures JobTraced(t, i) {
      assert JobTraced(s, i);
    }
    forall k | 0 <= k < |t.trace| ensures EventTraced(t, k) {
      if k < |s.trace| { assert EventTraced(s, k); }
    }
  }

  lemma StepKeepsTraced(s: State, step: Step)
    requires Traced(s) && Enabled(s, step)
    ensures Traced(Apply(s, step))
  {
    var t := Apply(s, step);
    if step.Run? && Succeeds(s, s.jobs[step.job], NextStmt(s, step.job)) {
      JobsStayTraced(s, step.job);
      forall k | 0 <= k < |t.trace| ensures EventTrue(t.trace, k) {
        if k < |s.trace| {
          assert EventTrue(s.trace, k);
          EventStaysTrue(s.trace, t.trace[|s.trace|], k);
        } else {
          NewEventTrue(s, step.job);
        }
      }
      forall c | c in t.cuts ensures CutTraced(t, c) { CutsStayTraced(s, step.job, c); }
    } else {
      forall i | 0 <= i < |t.jobs| ensures JobTraced(t, i) {
        if i < |s.jobs| { assert JobTraced(s, i); }
      }
      forall k | 0 <= k < |t.trace| ensures EventTraced(t, k) { assert EventTraced(s, k); }
      forall c | c in t.cuts ensures CutTraced(t, c) { assert CutTraced(s, c); }
    }
  }

  lemma {:induction false} RunKeepsTraced(s: State, steps: seq<Step>)
    requires Traced(s) && IsRun(s, steps)
    ensures Traced(After(s, steps))
    decreases |steps|
  {
    if steps != [] {
      StepKeepsTraced(s, steps[0]);
      RunKeepsTraced(Apply(s, steps[0]), steps[1..]);
    }
  }

  /** Run `job` executed `stmt` at position `k`. */
  predicate Did(trace: seq<Event>, k: int, job: Id, stmt: Stmt) {
    0 <= k < |trace| && trace[k].job == job && trace[k].stmt == stmt
  }

  lemma {:induction false} AtIncreases(s: State, j: Id, a: nat, b: nat)
    requires j < |s.jobs| && JobTraced(s, j) && a < b < |s.jobs[j].at|
    ensures s.jobs[j].at[a] < s.jobs[j].at[b]
  {
    if a + 1 < b { AtIncreases(s, j, a, b - 1); }
  }

  lemma DrainingSince(trace: seq<Event>, p: nat, job: Id, c: Id) returns (i: int)
    requires Did(trace, p, job, FoundDraining(c)) && EventTrue(trace, p)
    ensures i < p && InsertedAt(trace, i, c)
  {
    i :| i < p && InsertedAt(trace, i, c);
  }

  lemma SawDrained(trace: seq<Event>, o: nat, job: Id)
    requires Did(trace, o, job, SeeDrained) && EventTrue(trace, o)
    ensures trace[o].seen.Some? ==> trace[o].seen.value.lagBytes <= 0 && trace[o].seen.value.lagSeconds <= 0
  {
  }

  lemma SawLagging(trace: seq<Event>, o: nat, job: Id)
    requires Did(trace, o, job, SeeLagging) && EventTrue(trace, o)
    ensures trace[o].seen.Some? && (trace[o].seen.value.lagBytes > 0 || trace[o].seen.value.lagSeconds > 0)
  {
  }

  lemma OverdueSince(trace: seq<Event>, p: nat, job: Id, c: Id) returns (i: int)
    requires Did(trace, p, job, PastDeadline(c)) && EventTrue(trace, p)
    ensures i < p && InsertedAt(trace, i, c) && trace[i].now + DRAIN_MS < trace[p].now
  {
    i :| i < p && InsertedAt(trace, i, c) && trace[i].now + DRAIN_MS < trace[p].now;
  }

  /** Everything a run has before this statement in its program is before it in the trace. */
  lemma {:induction false} ProgramOrder(s: State, k: nat, i: nat)
    requires Traced(s) && k < |s.trace| && i < s.trace[k].pc
    ensures var e := s.trace[k];
            && e.job < |s.jobs| && i < |s.jobs[e.job].at|
            && s.jobs[e.job].at[i] < k
            && i < |Program(s.jobs[e.job].kind, e.job)|
            && Did(s.trace, s.jobs[e.job].at[i], e.job, Program(s.jobs[e.job].kind, e.job)[i])
    decreases s.trace[k].pc - i
  {
    var e := s.trace[k];
    assert EventTraced(s, k) && JobTraced(s, e.job);
    if i + 1 < e.pc {
      ProgramOrder(s, k, i + 1);
    }
  }

  // ---- Which stream a run goes by ----

  /** Since its `i`-th statement read the plan, run `j` goes by what that statement read. */
  ghost predicate ReadHolds(s: State, j: Id, i: nat)
    requires j < |s.jobs| && JobTraced(s, j) && i < |s.jobs[j].at|
  {
    var job := s.jobs[j];
    && job.read == s.trace[job.at[i]].pointer
    && forall p | i < p < |job.at| :: s.trace[job.at[p]].read == s.trace[job.at[i]].pointer
  }

  ghost predicate JobReads(s: State, j: Id)
    requires j < |s.jobs| && JobTraced(s, j)
  {
    var job := s.jobs[j];
    forall i | 0 <= i < |job.at| && Program(job.kind, j)[i] == ReadPlan :: ReadHolds(s, j, i)
  }

  ghost predicate ReadsTraced(s: State)
    requires Traced(s)
  {
    forall j | 0 <= j < |s.jobs| :: JobReads(s, j)
  }

  lemma ReadsOnce(kind: Kind, j: Id, i: nat, p: nat)
    requires i < |Program(kind, j)| && p < |Program(kind, j)|
    requires Program(kind, j)[i] == ReadPlan && Program(kind, j)[p] == ReadPlan
    ensures i == p
  {
  }

  /** A run whose own statements are the same in both states. */
  lemma OtherReads(s: State, t: State, j: Id)
    requires j < |s.jobs| && j < |t.jobs| && JobTraced(s, j) && JobTraced(t, j) && JobReads(s, j)
    requires s.trace <= t.trace
    requires t.jobs[j].kind == s.jobs[j].kind && t.jobs[j].at == s.jobs[j].at && t.jobs[j].read == s.jobs[j].read
    ensures JobReads(t, j)
  {
    var job := t.jobs[j];
    forall i | 0 <= i < |job.at| && Program(job.kind, j)[i] == ReadPlan ensures ReadHolds(t, j, i) {
      assert ReadHolds(s, j, i);
    }
  }

  lemma OwnReads(s: State, j: Id)
    requires Traced(s) && Enabled(s, Run(j)) && Succeeds(s, s.jobs[j], NextStmt(s, j)) && JobReads(s, j)
    requires JobTraced(RunOne(s, j), j)
    ensures JobReads(RunOne(s, j), j)
  {
    var t := RunOne(s, j);
    var job := t.jobs[j];
    var n := |s.jobs[j].at|;
    forall i | 0 <= i < |job.at| && Program(job.kind, j)[i] == ReadPlan ensures ReadHolds(t, j, i) {
      if i < n {
        assert ReadHolds(s, j, i);
        if NextStmt(s, j) == ReadPlan { ReadsOnce(job.kind, j, i, n); }
      }
    }
  }

  lemma StepKeepsReads(s: State, step: Step)
    requires Traced(s) && ReadsTraced(s) && Enabled(s, step)
    ensures Traced(Apply(s, step)) && ReadsTraced(Apply(s, step))
  {
    StepKeepsTraced(s, step);
    var t := Apply(s, step);
    forall j | 0 <= j < |t.jobs| ensures JobReads(t, j) {
      assert JobTraced(t, j);
      if j < |s.jobs| {
        assert JobTraced(s, j) && JobReads(s, j);
        if step == Run(j) && Succeeds(s, s.jobs[j], NextStmt(s, j)) { OwnReads(s, j); } else { OtherReads(s, t, j); }
      }
    }
  }

  lemma {:induction false} RunKeepsReads(s: State, steps: seq<Step>)
    requires Traced(s) && ReadsTraced(s) && IsRun(s, steps)
    ensures Traced(After(s, steps)) && ReadsTraced(After(s, steps))
    decreases |steps|
  {
    if steps != [] {
      StepKeepsReads(s, steps[0]);
      RunKeepsReads(Apply(s, steps[0]), steps[1..]);
    }
  }

  lemma LooksAfterReading(s: State, j: Id, i: nat, p: nat)
    requires Traced(s) && ReadsTraced(s) && j < |s.jobs| && i < p < |s.jobs[j].at|
    requires i < |Program(s.jobs[j].kind, j)|
    requires Program(s.jobs[j].kind, j)[i] == ReadPlan
    ensures LooksAtThePlansStream(s.trace, j, s.jobs[j].at[i], s.jobs[j].at[p])
  {
    assert JobTraced(s, j) && JobReads(s, j);
    assert ReadHolds(s, j, i);
    AtIncreases(s, j, i, p);
  }

  // ---- What justifies the moves ----

  /** What justifies a move into `cutover_complete` at `k` by a cutover job: it won the plan at `w`,
      inserted its own cutover row `c` at `i` and finished it as complete at `d`. */
  predicate CompletedByItsJob(trace: seq<Event>, k: nat, c: Id, w: int, i: int, d: int)
    requires k < |trace|
  {
    && w < i < d < k
    && Did(trace, w, trace[k].job, TryTransition(Validated, CutoverInProgress))
    && Did(trace, i, trace[k].job, InsertCut(c))
    && Did(trace, d, trace[k].job, FinishCut(c, Complete))
  }

  /** At `q` run `job` read which stream the plan points at, and at `o` it looked at that one. */
  predicate LooksAtThePlansStream(trace: seq<Event>, job: Id, q: int, o: int) {
    q < o < |trace| && Did(trace, q, job, ReadPlan) && trace[o].read == trace[q].pointer
  }

  /** The same by a reconciler pass: some job had inserted `c` at `i`; the pass read the plan at `q`, saw
      the stream the plan pointed at drained (or gone) at `o`, tore the streaming stack down at `t`, and
      then finished `c`. */
  predicate CompletedAfterDrain(trace: seq<Event>, k: nat, c: Id, i: int, q: int, o: int, t: int, d: int)
    requires k < |trace|
  {
    && i < q < o < t < d < k
    && InsertedAt(trace, i, c)
    && LooksAtThePlansStream(trace, trace[k].job, q, o)
    && Did(trace, o, trace[k].job, SeeDrained)
    && (trace[o].seen.Some? ==> trace[o].seen.value.lagBytes <= 0 && trace[o].seen.value.lagSeconds <= 0)
    && Did(trace, t, trace[k].job, TornDown)
    && Did(trace, d, trace[k].job, FinishCut(c, Complete))
  }

  lemma FakeCutoverJustified(s: State, k: nat)
    requires Traced(s) && k < |s.trace| && s.trace[k].stmt == SetPlan(CutoverComplete)
    requires s.trace[k].job < |s.jobs| && s.jobs[s.trace[k].job].kind == CutoverFake
    ensures exists c, w, i, d :: CompletedByItsJob(s.trace, k, c, w, i, d)
  {
    var e := s.trace[k];
    assert EventTraced(s, k) && JobTraced(s, e.job);
    assert Program(CutoverFake, e.job)[e.pc] == SetPlan(CutoverComplete);
    assert e.pc == 6;
    ProgramOrder(s, k, 2);
    ProgramOrder(s, k, 3);
    ProgramOrder(s, k, 5);
    var at := s.jobs[e.job].at;
    AtIncreases(s, e.job, 2, 3);
    AtIncreases(s, e.job, 3, 5);
    assert CompletedByItsJob(s.trace, k, e.job, at[2], at[3], at[5]);
  }

  lemma DrainedCutoverJustified(s: State, k: nat)
    requires Traced(s) && ReadsTraced(s) && k < |s.trace| && s.trace[k].stmt == SetPlan(CutoverComplete)
    requires s.trace[k].job < |s.jobs| && s.jobs[s.trace[k].job].kind.DrainComplete?
    ensures exists c, i, q, o, t, d :: CompletedAfterDrain(s.trace, k, c, i, q, o, t, d)
  {
    var e := s.trace[k];
    assert EventTraced(s, k) && JobTraced(s, e.job);
    var c := s.jobs[e.job].kind.cut;
    assert Program(DrainComplete(c), e.job)[e.pc] == SetPlan(CutoverComplete);
    assert e.pc == 6;
    ProgramOrder(s, k, 0);
    ProgramOrder(s, k, 1);
    ProgramOrder(s, k, 2);
    ProgramOrder(s, k, 3);
    ProgramOrder(s, k, 5);
    AtIncreases(s, e.job, 0, 1);
    LooksAfterReading(s, e.job, 1, 2);
    AtIncreases(s, e.job, 2, 3);
    AtIncreases(s, e.job, 3, 5);
    var at := s.jobs[e.job].at;
    assert EventTrue(s.trace, at[0]) && EventTrue(s.trace, at[2]);
    SawDrained(s.trace, at[2], e.job);
    var i := DrainingSince(s.trace, at[0], e.job, c);
    assert CompletedAfterDrain(s.trace, k, c, i, at[1], at[2], at[3], at[5]);
  }

  lemma OnlyCutoversComplete(kind: Kind, j: Id, p: nat)
    requires p < |Program(kind, j)|
    requires var stmt := Program(kind, j)[p];
             stmt == SetPlan(CutoverComplete) || (stmt.TryTransition? && stmt.to == CutoverComplete)
    ensures Program(kind, j)[p] == SetPlan(CutoverComplete) && (kind.CutoverFake? || kind.DrainComplete?)
  {
  }

  /** Events that move the plan into `x`. */
  predicate MovesInto(e: Event, x: PlanState) {
    e.before != x && e.after == x
  }

  lemma MovesAreWrites(s: State, steps: seq<Step>, k: nat, x: PlanState)
    requires IsRun(INIT, steps) && s == After(INIT, steps) && k < |s.trace| && MovesInto(s.trace[k], x)
    ensures var stmt := s.trace[k].stmt; stmt == SetPlan(x) || (stmt.TryTransition? && stmt.to == x)
  {
    WritesExplainMoves(INIT, steps, k);
  }

  /** A move is the statement's doing, and a statement that asks for a state found it. */
  ghost predicate Explained(e: Event) {
    && (e.before != e.after ==> e.stmt == SetPlan(e.after) || (e.stmt.TryTransition? && e.stmt.to == e.after))
    && (e.stmt.TryTransition? ==> e.before == e.stmt.from && e.after == e.stmt.to)
    && (e.stmt.FoundPlan? ==> e.before == e.stmt.state)
  }

  lemma PlanIsWritten(s: State, job: Job, stmt: Stmt)
    requires Succeeds(s, job, stmt) && Effect(s, job, stmt).plan != s.plan
    ensures stmt == SetPlan(Effect(s, job, stmt).plan) || stmt == TryTransition(s.plan, Effect(s, job, stmt).plan)
  {
  }

  lemma StepIsExplained(s: State, step: Step)
    requires Enabled(s, step) && forall i | 0 <= i < |s.trace| :: Explained(s.trace[i])
    ensures forall i | 0 <= i < |Apply(s, step).trace| :: Explained(Apply(s, step).trace[i])
  {
    if step.Run? && Succeeds(s, s.jobs[step.job], NextStmt(s, step.job)) {
      var job, stmt := s.jobs[step.job], NextStmt(s, step.job);
      if Effect(s, job, stmt).plan != s.plan { PlanIsWritten(s, job, stmt); }
    }
  }

  lemma {:induction false} WritesExplainMoves(s: State, steps: seq<Step>, k: nat)
    requires IsRun(s, steps) && k < |After(s, steps).trace|
    requires forall i | 0 <= i < |s.trace| :: Explained(s.trace[i])
    ensures Explained(After(s, steps).trace[k])
    decreases |steps|
  {
    if steps != [] {
      StepIsExplained(s, steps[0]);
      WritesExplainMoves(Apply(s, steps[0]), steps[1..], k);
    }
  }

  /** In every run, every move of the plan into `cutover_complete` comes after the completion of one of
      the plan's own cutovers by the same run. If it is not a fake-mode cutover job that moves it, that
      run has also seen a recorded lag of zero, in bytes and in seconds, of the stream the plan pointed
      at when the run read it, and torn the streaming stack down. */
  lemma CutoverCompleteIsJustified(steps: seq<Step>, k: nat)
    requires IsRun(INIT, steps)
    requires k < |After(INIT, steps).trace| && MovesInto(After(INIT, steps).trace[k], CutoverComplete)
    ensures var s := After(INIT, steps);
            && s.trace[k].job < |s.jobs|
            && if s.jobs[s.trace[k].job].kind == CutoverFake
               then exists c, w, i, d :: CompletedByItsJob(s.trace, k, c, w, i, d)
               else exists c, i, q, o, t, d :: CompletedAfterDrain(s.trace, k, c, i, q, o, t, d)
  {
    var s := After(INIT, steps);
    RunKeepsReads(INIT, steps);
    MovesAreWrites(s, steps, k, CutoverComplete);
    var e := s.trace[k];
    assert EventTraced(s, k) && JobTraced(s, e.job);
    OnlyCutoversComplete(s.jobs[e.job].kind, e.job, e.pc);
    if s.jobs[e.job].kind.CutoverFake? { FakeCutoverJustified(s, k); } else { DrainedCutoverJustified(s, k); }
  }

  /** What justifies a move into `validated` at `k`: the same run inserted a validation and recorded it as
      passed, or found one running, saw its Job succeed and recorded that, or it had just failed a cutover
      `c` that it saw lagging after `c`'s five-minute deadline. */
  ghost predicate ValidatedForAReason(trace: seq<Event>, k: nat)
    requires k < |trace|
  {
    var run := trace[k].job;
    || (exists v, i, d ::
          i < d < k && Did(trace, i, run, InsertValidation(v)) && Did(trace, d, run, RecordValidation(v, true)))
    || (exists v, f, w, d :: ValidationSeenPassing(trace, k, v, f, w, d))
    || (exists c, i, q, o, p, d :: FailedOverdue(trace, k, c, i, q, o, p, d))
  }

  ghost predicate ValidationSeenPassing(trace: seq<Event>, k: nat, v: Id, f: int, w: int, d: int)
    requires k < |trace|
  {
    var run := trace[k].job;
    && f < w < d < k
    && Did(trace, f, run, FoundRunning(v)) && Did(trace, w, run, Saw(true))
    && Did(trace, d, run, RecordValidation(v, true))
  }

  ghost predicate FailedOverdue(trace: seq<Event>, k: nat, c: Id, i: int, q: int, o: int, p: int, d: int)
    requires k < |trace|
  {
    var run := trace[k].job;
    && i < p && o < p < d < k
    && LooksAtThePlansStream(trace, run, q, o)
    && InsertedAt(trace, i, c)
    && Did(trace, o, run, SeeLagging)
    && trace[o].seen.Some? && (trace[o].seen.value.lagBytes > 0 || trace[o].seen.value.lagSeconds > 0)
    && Did(trace, p, run, PastDeadline(c)) && trace[i].now + DRAIN_MS < trace[p].now
    && Did(trace, d, run, FinishCut(c, CutFailed))
  }

  lemma OnlyValidationsAndExpiries(kind: Kind, j: Id, p: nat)
    requires p < |Program(kind, j)|
    requires var stmt := Program(kind, j)[p];
             stmt == SetPlan(Validated) || (stmt.TryTransition? && stmt.to == Validated)
    ensures || (kind.ValidateInline? && p == 3) || (kind.ValidateAdvisory? && p == 5)
            || (kind.ValidationPassed? && p == 3) || (kind.DrainExpired? && p == 5)
  {
  }

  lemma ExpiryJustified(s: State, k: nat)
    requires Traced(s) && ReadsTraced(s) && k < |s.trace| && s.trace[k].pc == 5
    requires s.trace[k].job < |s.jobs| && s.jobs[s.trace[k].job].kind.DrainExpired?
    ensures exists i, q, o, p, d :: FailedOverdue(s.trace, k, s.jobs[s.trace[k].job].kind.cut, i, q, o, p, d)
  {
    var e := s.trace[k];
    var c := s.jobs[e.job].kind.cut;
    assert EventTraced(s, k) && JobTraced(s, e.job);
    ProgramOrder(s, k, 1);
    ProgramOrder(s, k, 2);
    ProgramOrder(s, k, 3);
    ProgramOrder(s, k, 4);
    LooksAfterReading(s, e.job, 1, 2);
    AtIncreases(s, e.job, 2, 3);
    AtIncreases(s, e.job, 3, 4);
    var at := s.jobs[e.job].at;
    assert EventTrue(s.trace, at[2]) && EventTrue(s.trace, at[3]);
    SawLagging(s.trace, at[2], e.job);
    var i := OverdueSince(s.trace, at[3], e.job, c);
    assert FailedOverdue(s.trace, k, c, i, at[1], at[2], at[3], at[4]);
  }

  /** In every run, the plan enters `validated` only after a passed validation, or after the run
      that returns it there has marked an overdue, still lagging cutover failed. */
  lemma ValidatedIsJustified(steps: seq<Step>, k: nat)
    requires IsRun(INIT, steps)
    requires k < |After(INIT, steps).trace| && MovesInto(After(INIT, steps).trace[k], Validated)
    ensures ValidatedForAReason(After(INIT, steps).trace, k)
  {
    var s := After(INIT, steps);
    RunKeepsReads(INIT, steps);
    MovesAreWrites(s, steps, k, Validated);
    var e := s.trace[k];
    assert EventTraced(s, k) && JobTraced(s, e.job);
    var kind := s.jobs[e.job].kind;
    OnlyValidationsAndExpiries(kind, e.job, e.pc);
    if kind.DrainExpired? { ExpiryJustified(s, k); }
    else if kind.ValidationPassed? { PassedJobJustifies(s, k, kind.validation); }
    else { InlineValidationJustifies(s, k); }
  }

  lemma InlineValidationJustifies(s: State, k: nat)
    requires Traced(s) && k < |s.trace| && s.trace[k].job < |s.jobs|
    requires var kind := s.jobs[s.trace[k].job].kind;
             (kind.ValidateInline? && s.trace[k].pc == 3) || (kind.ValidateAdvisory? && s.trace[k].pc == 5)
    ensures ValidatedForAReason(s.trace, k)
  {
    var e := s.trace[k];
    assert EventTraced(s, k) && JobTraced(s, e.job);
    var i, d := if e.pc == 3 then 1 else 2, if e.pc == 3 then 2 else 4;
    ProgramOrder(s, k, i);
    ProgramOrder(s, k, d);
    AtIncreases(s, e.job, i, d);
    var at := s.jobs[e.job].at;
    assert Did(s.trace, at[i], e.job, InsertValidation(e.job));
    assert Did(s.trace, at[d], e.job, RecordValidation(e.job, true));
  }

  lemma PassedJobJustifies(s: State, k: nat, v: Id)
    requires Traced(s) && k < |s.trace| && s.trace[k].pc == 3
    requires s.trace[k].job < |s.jobs| && s.jobs[s.trace[k].job].kind == ValidationPassed(v)
    ensures ValidatedForAReason(s.trace, k)
  {
    var e := s.trace[k];
    assert EventTraced(s, k) && JobTraced(s, e.job);
    ProgramOrder(s, k, 0);
    ProgramOrder(s, k, 1);
    ProgramOrder(s, k, 2);
    AtIncreases(s, e.job, 0, 1);
    AtIncreases(s, e.job, 1, 2);
    var at := s.jobs[e.job].at;
    assert ValidationSeenPassing(s.trace, k, v, at[0], at[1], at[2]);
  }
}
