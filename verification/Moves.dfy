/** Why the plan is in the state it is in: for each state, what must have come before a move into it, over
    every interleaving of stage jobs and reconciler passes. `DataBridge` has `validated` and
    `cutover_complete`. */
module Moves {
  import opened Options
  import opened DataBridge
  import opened OneCutover

  /** Statement `p` of this program writes `x`. */
  predicate WritesState(kind: Kind, j: Id, p: nat, x: PlanState) {
    && p < |Program(kind, j)|
    && var stmt := Program(kind, j)[p];
    stmt == SetPlan(x) || (stmt.TryTransition? && stmt.to == x)
  }

  /** The run that moves the plan at `k` did this before. */
  ghost predicate DidBefore(trace: seq<Event>, k: nat, d: int, stmt: Stmt)
    requires k < |trace|
  {
    d < k && Did(trace, d, trace[k].job, stmt)
  }

  /** A reachable state, and a move in its trace. */
  ghost predicate Moved(steps: seq<Step>, s: State, k: nat, x: PlanState) {
    IsRun(INIT, steps) && s == After(INIT, steps) && k < |s.trace| && MovesInto(s.trace[k], x)
  }

  /** What is known of every move: which run made it and with which statement. */
  lemma Mover(steps: seq<Step>, s: State, k: nat, x: PlanState)
    requires Moved(steps, s, k, x)
    ensures Traced(s) && s.trace[k].job < |s.jobs|
    ensures WritesState(s.jobs[s.trace[k].job].kind, s.trace[k].job, s.trace[k].pc, x)
    ensures s.trace[k].stmt == Program(s.jobs[s.trace[k].job].kind, s.trace[k].job)[s.trace[k].pc]
    ensures Explained(s.trace[k])
  {
    RunKeepsTraced(INIT, steps);
    WritesExplainMoves(INIT, steps, k);
    assert EventTraced(s, k) && JobTraced(s, s.trace[k].job);
  }

  lemma Earlier(s: State, k: nat, i: nat) returns (d: nat)
    requires Traced(s) && k < |s.trace| && i < s.trace[k].pc
    ensures s.trace[k].job < |s.jobs| && i < |Program(s.jobs[s.trace[k].job].kind, s.trace[k].job)|
    ensures DidBefore(s.trace, k, d, Program(s.jobs[s.trace[k].job].kind, s.trace[k].job)[i])
    ensures i < |s.jobs[s.trace[k].job].at| && d == s.jobs[s.trace[k].job].at[i]
  {
    ProgramOrder(s, k, i);
    d := s.jobs[s.trace[k].job].at[i];
  }

  lemma InOrder(s: State, k: nat, a: nat, b: nat)
    requires Traced(s) && k < |s.trace| && a < b < s.trace[k].pc
    ensures s.trace[k].job < |s.jobs| && b < |s.jobs[s.trace[k].job].at|
    ensures s.jobs[s.trace[k].job].at[a] < s.jobs[s.trace[k].job].at[b]
  {
    assert EventTraced(s, k) && JobTraced(s, s.trace[k].job);
    AtIncreases(s, s.trace[k].job, a, b);
  }

  // ---- loaded ----

  /** The run that moves the plan loaded the data itself, or found the plan loading and its Job succeeded. */
  ghost predicate LoadedForAReason(trace: seq<Event>, k: nat)
    requires k < |trace|
  {
    || (exists d :: DidBefore(trace, k, d, SetPlan(FullLoading)))
    || (exists f, w :: f < w && DidBefore(trace, k, f, FoundPlan(FullLoading)) && DidBefore(trace, k, w, Saw(true)))
  }

  lemma WhoLoads(kind: Kind, j: Id, p: nat)
    requires WritesState(kind, j, p, Loaded)
    ensures (kind.FullLoadInline? && p == 1) || (kind.LoadSucceeded? && p == 2)
  {
  }

  /** In every run the plan becomes `loaded` only after an inline load, or when a pass that found it
      `full_loading` saw the load's Job succeed. */
  lemma LoadedIsJustified(steps: seq<Step>, s: State, k: nat)
    requires Moved(steps, s, k, Loaded)
    ensures LoadedForAReason(s.trace, k)
  {
    Mover(steps, s, k, Loaded);
    var e := s.trace[k];
    WhoLoads(s.jobs[e.job].kind, e.job, e.pc);
    var d := Earlier(s, k, 0);
    if s.jobs[e.job].kind.LoadSucceeded? {
      var w := Earlier(s, k, 1);
      InOrder(s, k, 0, 1);
    }
  }

  // ---- failed ----

  /** The run saw a Job fail: that of the load it found under way, or that of a validation it found running
      and recorded as failed. */
  ghost predicate FailedForAReason(trace: seq<Event>, k: nat)
    requires k < |trace|
  {
    || (exists f, w :: f < w && DidBefore(trace, k, f, FoundPlan(FullLoading)) && DidBefore(trace, k, w, Saw(false)))
    || (exists v, f, w, d :: ValidationSeenFailing(trace, k, v, f, w, d))
  }

  ghost predicate ValidationSeenFailing(trace: seq<Event>, k: nat, v: Id, f: int, w: int, d: int)
    requires k < |trace|
  {
    && f < w < d
    && DidBefore(trace, k, f, FoundRunning(v)) && DidBefore(trace, k, w, Saw(false))
    && DidBefore(trace, k, d, RecordValidation(v, false))
  }

  lemma WhoFails(kind: Kind, j: Id, p: nat)
    requires WritesState(kind, j, p, Failed)
    ensures (kind.LoadFailed? && p == 2) || (kind.ValidationFailed? && p == 3)
  {
  }

  lemma FailedIsJustified(steps: seq<Step>, s: State, k: nat)
    requires Moved(steps, s, k, Failed)
    ensures FailedForAReason(s.trace, k)
  {
    Mover(steps, s, k, Failed);
    var e := s.trace[k];
    var kind := s.jobs[e.job].kind;
    WhoFails(kind, e.job, e.pc);
    if kind.LoadFailed? { LoadSeenFailing(s, k); } else { ValidationFails(s, k, kind.validation); }
  }

  lemma LoadSeenFailing(s: State, k: nat)
    requires Traced(s) && k < |s.trace| && s.trace[k].pc == 2
    requires s.trace[k].job < |s.jobs| && s.jobs[s.trace[k].job].kind == LoadFailed
    ensures FailedForAReason(s.trace, k)
  {
    var f := Earlier(s, k, 0);
    var w := Earlier(s, k, 1);
    InOrder(s, k, 0, 1);
    assert DidBefore(s.trace, k, f, FoundPlan(FullLoading)) && DidBefore(s.trace, k, w, Saw(false));
  }

  lemma ValidationFails(s: State, k: nat, v: Id)
    requires Traced(s) && k < |s.trace| && s.trace[k].pc == 3
    requires s.trace[k].job < |s.jobs| && s.jobs[s.trace[k].job].kind == ValidationFailed(v)
    ensures FailedForAReason(s.trace, k)
  {
    var f := Earlier(s, k, 0);
    var w := Earlier(s, k, 1);
    var d := Earlier(s, k, 2);
    InOrder(s, k, 0, 1);
    InOrder(s, k, 1, 2);
    assert ValidationSeenFailing(s.trace, k, v, f, w, d);
  }

  // ---- provisioned ----

  /** The run marked a cluster ready: its own, right after inserting it, or one it found provisioning and
      saw ready. */
  ghost predicate ProvisionedForAReason(trace: seq<Event>, k: nat)
    requires k < |trace|
  {
    || (exists e, i, d :: i < d && DidBefore(trace, k, i, InsertEdge(e)) && DidBefore(trace, k, d, ReadyEdge(e)))
    || (exists e, f, w, d :: ClusterSeenReady(trace, k, e, f, w, d))
  }

  ghost predicate ClusterSeenReady(trace: seq<Event>, k: nat, e: Id, f: int, w: int, d: int)
    requires k < |trace|
  {
    && f < w < d
    && DidBefore(trace, k, f, FoundProvisioning(e)) && DidBefore(trace, k, w, Saw(true))
    && DidBefore(trace, k, d, ReadyEdge(e))
  }

  lemma WhoProvisions(kind: Kind, j: Id, p: nat)
    requires WritesState(kind, j, p, Provisioned)
    ensures (kind.ProvisionFake? && p == 4) || (kind.EdgeReady? && p == 3)
  {
  }

  lemma ProvisionedIsJustified(steps: seq<Step>, s: State, k: nat)
    requires Moved(steps, s, k, Provisioned)
    ensures ProvisionedForAReason(s.trace, k)
  {
    Mover(steps, s, k, Provisioned);
    var e := s.trace[k];
    var kind := s.jobs[e.job].kind;
    WhoProvisions(kind, e.job, e.pc);
    if kind.ProvisionFake? { ProvisionedInline(s, k); } else { ProvisionedByPass(s, k, kind.edge); }
  }

  lemma ProvisionedInline(s: State, k: nat)
    requires Traced(s) && k < |s.trace| && s.trace[k].pc == 4
    requires s.trace[k].job < |s.jobs| && s.jobs[s.trace[k].job].kind == ProvisionFake
    ensures ProvisionedForAReason(s.trace, k)
  {
    var i := Earlier(s, k, 1);
    var d := Earlier(s, k, 3);
    InOrder(s, k, 1, 3);
    var e := s.trace[k].job;
    assert DidBefore(s.trace, k, i, InsertEdge(e)) && DidBefore(s.trace, k, d, ReadyEdge(e));
  }

  lemma ProvisionedByPass(s: State, k: nat, e: Id)
    requires Traced(s) && k < |s.trace| && s.trace[k].pc == 3
    requires s.trace[k].job < |s.jobs| && s.jobs[s.trace[k].job].kind == EdgeReady(e)
    ensures ProvisionedForAReason(s.trace, k)
  {
    var f := Earlier(s, k, 0);
    var w := Earlier(s, k, 1);
    var d := Earlier(s, k, 2);
    InOrder(s, k, 0, 1);
    InOrder(s, k, 1, 2);
    assert ClusterSeenReady(s.trace, k, e, f, w, d);
  }

  // ---- assessed ----

  /** An assessment wrote it, or a provisioning run gave the plan back after deleting the cluster row it had
      inserted. */
  ghost predicate AssessedForAReason(s: State, k: nat)
    requires k < |s.trace| && s.trace[k].job < |s.jobs|
  {
    || s.jobs[s.trace[k].job].kind == Assess
    || (exists e, i, d :: i < d && DidBefore(s.trace, k, i, InsertEdge(e)) && DidBefore(s.trace, k, d, DeleteEdge(e)))
  }

  lemma WhoAssesses(kind: Kind, j: Id, p: nat)
    requires WritesState(kind, j, p, Assessed)
    ensures kind.Assess? || (kind.ProvisionRefused? && p == 4)
  {
  }

  lemma AssessedIsJustified(steps: seq<Step>, s: State, k: nat)
    requires Moved(steps, s, k, Assessed)
    ensures s.trace[k].job < |s.jobs| && AssessedForAReason(s, k)
  {
    Mover(steps, s, k, Assessed);
    var e := s.trace[k];
    WhoAssesses(s.jobs[e.job].kind, e.job, e.pc);
    if !s.jobs[e.job].kind.Assess? {
      var i := Earlier(s, k, 1);
      var d := Earlier(s, k, 3);
      InOrder(s, k, 1, 3);
      assert DidBefore(s.trace, k, i, InsertEdge(e.job)) && DidBefore(s.trace, k, d, DeleteEdge(e.job));
    }
  }

  // ---- rolled_back ----

  /** The run finished the cutover inserted last as rolled back, or no cutover had been inserted at all. */
  ghost predicate RolledBackForAReason(trace: seq<Event>, k: nat)
    requires k < |trace|
  {
    || (exists c, f, d ::
          && f < d && DidBefore(trace, k, f, FoundCut(c)) && DidBefore(trace, k, d, FinishCut(c, CutRolledBack))
          && InsertedLast(trace, f, c))
    || (exists f :: DidBefore(trace, k, f, FoundNoCut) && NoneInserted(trace, f))
  }

  ghost predicate NoneInserted(trace: seq<Event>, k: int) {
    forall i | 0 <= i < k && i < |trace| :: !trace[i].stmt.InsertCut?
  }

  /** Of the cutovers inserted before event `k`, none was inserted later than `c`. */
  ghost predicate InsertedLast(trace: seq<Event>, k: int, c: Id) {
    exists i :: i < k && InsertedAt(trace, i, c) && NoneLater(trace, k, trace[i].now)
  }

  ghost predicate NoneLater(trace: seq<Event>, k: int, time: nat) {
    forall l | 0 <= l < k && l < |trace| && trace[l].stmt.InsertCut? :: trace[l].now <= time
  }

  lemma WhoRollsBack(kind: Kind, j: Id, p: nat)
    requires WritesState(kind, j, p, RolledBack)
    ensures (kind.RollbackCut? && p == 2) || (kind.RollbackNoCut? && p == 1)
  {
  }

  /** Cutover rows stay, so finding none means that none was inserted. */
  ghost predicate NoCutTrue(s: State) {
    && (forall i | 0 <= i < |s.trace| && s.trace[i].stmt.InsertCut? :: s.trace[i].stmt.id in s.cuts)
    && (forall k | 0 <= k < |s.trace| && s.trace[k].stmt == FoundNoCut :: NoneInserted(s.trace, k))
  }

  lemma StepKeepsNoCutTrue(s: State, step: Step)
    requires NoCutTrue(s) && Enabled(s, step)
    ensures NoCutTrue(Apply(s, step))
  {
    var t := Apply(s, step);
    if step.Run? && Succeeds(s, s.jobs[step.job], NextStmt(s, step.job)) {
      var job, stmt := s.jobs[step.job], NextStmt(s, step.job);
      forall i | 0 <= i < |t.trace| && t.trace[i].stmt.InsertCut? ensures t.trace[i].stmt.id in t.cuts {
        EffectKeepsCuts(s, job, stmt, t.trace[i].stmt.id);
      }
      forall k | 0 <= k < |t.trace| && t.trace[k].stmt == FoundNoCut ensures NoneInserted(t.trace, k) {
        if k < |s.trace| { assert NoneInserted(s.trace, k); }
      }
    }
  }

  lemma {:induction false} RunKeepsNoCutTrue(s: State, steps: seq<Step>)
    requires NoCutTrue(s) && IsRun(s, steps)
    ensures NoCutTrue(After(s, steps))
    decreases |steps|
  {
    if steps != [] {
      StepKeepsNoCutTrue(s, steps[0]);
      RunKeepsNoCutTrue(Apply(s, steps[0]), steps[1..]);
    }
  }

  /** A cutover's deadline counts from its latest insert, and whoever looked for the latest found it. */
  ghost predicate LatestTrue(s: State) {
    && (forall i | 0 <= i < |s.trace| :: s.trace[i].now <= s.clock)
    && (forall i | 0 <= i < |s.trace| && s.trace[i].stmt.InsertCut? :: DueAfter(s, i))
    && (forall k | 0 <= k < |s.trace| && s.trace[k].stmt.FoundCut? :: InsertedLast(s.trace, k, s.trace[k].stmt.id))
  }

  ghost predicate DueAfter(s: State, i: nat)
    requires i < |s.trace| && s.trace[i].stmt.InsertCut?
  {
    var c := s.trace[i].stmt.id;
    c in s.cuts && s.cuts[c].deadline >= s.trace[i].now + DRAIN_MS
  }

  lemma LatestIsInsertedLast(s: State, c: Id)
    requires Traced(s) && LatestTrue(s) && Latest(s.cuts, c)
    ensures InsertedLast(s.trace, |s.trace|, c)
  {
    assert CutTraced(s, c);
    var i :| InsertedAt(s.trace, i, c) && s.cuts[c].deadline == s.trace[i].now + DRAIN_MS;
    forall l | 0 <= l < |s.trace| && s.trace[l].stmt.InsertCut? ensures s.trace[l].now <= s.trace[i].now {
      assert DueAfter(s, l);
    }
  }

  lemma StaysInsertedLast(trace: seq<Event>, longer: seq<Event>, k: nat, c: Id)
    requires k <= |trace| && trace <= longer && InsertedLast(trace, k, c)
    ensures InsertedLast(longer, k, c)
  {
    var i :| i < k && InsertedAt(trace, i, c) && NoneLater(trace, k, trace[i].now);
    assert InsertedAt(longer, i, c) && NoneLater(longer, k, longer[i].now);
  }

  lemma DeadlinesGrow(s: State, job: Job, stmt: Stmt, c: Id)
    requires c in s.cuts && s.cuts[c].deadline <= s.clock + DRAIN_MS
    ensures c in Effect(s, job, stmt).cuts && Effect(s, job, stmt).cuts[c].deadline >= s.cuts[c].deadline
  {
    EffectKeepsCuts(s, job, stmt, c);
    if stmt != InsertCut(c) { DeadlinesStay(s, job, stmt, c); }
  }

  lemma DueStays(s: State, j: Id, i: nat)
    requires Traced(s) && LatestTrue(s) && Enabled(s, Run(j)) && Succeeds(s, s.jobs[j], NextStmt(s, j))
    requires i < |RunOne(s, j).trace| && RunOne(s, j).trace[i].stmt.InsertCut?
    ensures DueAfter(RunOne(s, j), i)
  {
    if i < |s.trace| {
      var c := s.trace[i].stmt.id;
      assert DueAfter(s, i) && CutTraced(s, c);
      DeadlinesGrow(s, s.jobs[j], NextStmt(s, j), c);
    }
  }

  lemma StepKeepsLatestTrue(s: State, step: Step)
    requires Traced(s) && LatestTrue(s) && Enabled(s, step)
    ensures LatestTrue(Apply(s, step))
  {
    var t := Apply(s, step);
    if step.Run? && Succeeds(s, s.jobs[step.job], NextStmt(s, step.job)) {
      forall i | 0 <= i < |t.trace| && t.trace[i].stmt.InsertCut? ensures DueAfter(t, i) { DueStays(s, step.job, i); }
      forall k | 0 <= k < |t.trace| && t.trace[k].stmt.FoundCut?
        ensures InsertedLast(t.trace, k, t.trace[k].stmt.id)
      {
        if k == |s.trace| { LatestIsInsertedLast(s, t.trace[k].stmt.id); }
        StaysInsertedLast(s.trace, t.trace, k, t.trace[k].stmt.id);
      }
    } else {
      assert t.trace == s.trace && t.cuts == s.cuts && s.clock <= t.clock;
      forall i | 0 <= i < |t.trace| && t.trace[i].stmt.InsertCut? ensures DueAfter(t, i) { assert DueAfter(s, i); }
    }
  }

  lemma {:induction false} RunKeepsLatestTrue(s: State, steps: seq<Step>)
    requires Traced(s) && LatestTrue(s) && IsRun(s, steps)
    ensures LatestTrue(After(s, steps))
    decreases |steps|
  {
    if steps != [] {
      StepKeepsLatestTrue(s, steps[0]);
      StepKeepsTraced(s, steps[0]);
      RunKeepsLatestTrue(Apply(s, steps[0]), steps[1..]);
    }
  }

  lemma RolledBackIsJustified(steps: seq<Step>, s: State, k: nat)
    requires Moved(steps, s, k, RolledBack)
    ensures RolledBackForAReason(s.trace, k)
  {
    Mover(steps, s, k, RolledBack);
    RunKeepsNoCutTrue(INIT, steps);
    RunKeepsLatestTrue(INIT, steps);
    var e := s.trace[k];
    var kind := s.jobs[e.job].kind;
    WhoRollsBack(kind, e.job, e.pc);
    if kind.RollbackCut? { RolledBackWithCut(s, k, kind.cut); } else { RolledBackWithout(s, k); }
  }

  lemma RolledBackWithCut(s: State, k: nat, c: Id)
    requires Traced(s) && LatestTrue(s) && k < |s.trace| && s.trace[k].pc == 2
    requires s.trace[k].job < |s.jobs| && s.jobs[s.trace[k].job].kind == RollbackCut(c)
    ensures RolledBackForAReason(s.trace, k)
  {
    var f := Earlier(s, k, 0);
    var d := Earlier(s, k, 1);
    InOrder(s, k, 0, 1);
    assert DidBefore(s.trace, k, f, FoundCut(c)) && DidBefore(s.trace, k, d, FinishCut(c, CutRolledBack));
  }

  lemma RolledBackWithout(s: State, k: nat)
    requires Traced(s) && NoCutTrue(s) && k < |s.trace| && s.trace[k].pc == 1
    requires s.trace[k].job < |s.jobs| && s.jobs[s.trace[k].job].kind == RollbackNoCut
    ensures RolledBackForAReason(s.trace, k)
  {
    var f := Earlier(s, k, 0);
    assert DidBefore(s.trace, k, f, FoundNoCut);
    assert NoneInserted(s.trace, f);
  }

  // ---- The states that are entered by one compare-and-set, or by a stage job's first write ----

  /** The only way into each of these is to win it from the state before. */
  function WonFrom(x: PlanState): Option<PlanState> {
    match x
    case Discovered => Some(Draft)
    case Provisioning => Some(Assessed)
    case CdcStreaming => Some(Loaded)
    case CutoverInProgress => Some(Validated)
    case _ => None
  }

  lemma WhoWins(kind: Kind, j: Id, p: nat, x: PlanState)
    requires WritesState(kind, j, p, x) && WonFrom(x).Some?
    ensures Program(kind, j)[p] == TryTransition(WonFrom(x).value, x)
  {
  }

  lemma WonStatesFollow(steps: seq<Step>, s: State, k: nat, x: PlanState)
    requires Moved(steps, s, k, x) && WonFrom(x).Some?
    ensures s.trace[k].before == WonFrom(x).value
  {
    Mover(steps, s, k, x);
    var e := s.trace[k];
    WhoWins(s.jobs[e.job].kind, e.job, e.pc, x);
  }

  /** `full_loading` and `validating` are written by the jobs of those stages alone, and nothing leads back
      to `draft`. */
  lemma StagesWriteTheirOwn(steps: seq<Step>, s: State, k: nat, x: PlanState)
    requires Moved(steps, s, k, x)
    ensures x != Draft && s.trace[k].job < |s.jobs|
    ensures var kind := s.jobs[s.trace[k].job].kind;
            && (x == FullLoading ==> kind.FullLoadInline? || kind.FullLoadBatch?)
            && (x == Validating ==> kind.ValidateInline? || kind.ValidateBatch? || kind.ValidateAdvisory?)
  {
    Mover(steps, s, k, x);
    WhoElse(s.jobs[s.trace[k].job].kind, s.trace[k].job, s.trace[k].pc, x);
  }

  lemma WhoElse(kind: Kind, j: Id, p: nat, x: PlanState)
    requires WritesState(kind, j, p, x)
    ensures x != Draft
    ensures x == FullLoading ==> kind.FullLoadInline? || kind.FullLoadBatch?
    ensures x == Validating ==> kind.ValidateInline? || kind.ValidateBatch? || kind.ValidateAdvisory?
  {
  }

  // ---- Writes to the other rows ----

  /** Every earlier statement of the program was done before by the same run. */
  lemma DidAllBefore(s: State, k: nat, i: nat)
    requires Traced(s) && k < |s.trace| && i < s.trace[k].pc
    ensures s.trace[k].job < |s.jobs| && i < |Program(s.jobs[s.trace[k].job].kind, s.trace[k].job)|
    ensures exists d :: DidBefore(s.trace, k, d, Program(s.jobs[s.trace[k].job].kind, s.trace[k].job)[i])
  {
    var d := Earlier(s, k, i);
  }

  ghost predicate Done(trace: seq<Event>, k: nat, stmt: Stmt)
    requires k < |trace|
  {
    exists d :: DidBefore(trace, k, d, stmt)
  }

  /** What a statement on a stream, a cutover, a cluster or a validation needs to have come before it in its
      program, or which program it must be in. */
  predicate DueOnStreams(kind: Kind, j: Id, p: nat)
    requires p < |Program(kind, j)|
  {
    var prog := Program(kind, j);
    match prog[p]
    case InsertStream(id) => id == j && p >= 1 && prog[p - 1] == TryTransition(Loaded, CdcStreaming)
    case PointAt(id) => p >= 1 && prog[p - 1] == InsertStream(id)
    case SetStream(id, state) => state == Streaming && p >= 1 && prog[p - 1] == PointAt(id)
    case SetReadStream(state) =>
      if state == Streaming then p >= 1 && prog[p - 1] == NeedsStream
      else state == Stopped && (kind.StopCdc? || (p >= 1 && prog[p - 1] == SetPlan(CutoverComplete)))
    case SetLag(id, bytes, seconds) =>
      || kind == LagMeasured(id, bytes, seconds)
      || (id == j && bytes == 536870912 && seconds == 45 && p >= 1 && prog[p - 1] == SetStream(id, Streaming))
    case SetReadLag(bytes, seconds) =>
      bytes == 268435456 && seconds == 30 && p >= 1 && prog[p - 1] == SetReadStream(Streaming)
    case _ => true
  }

  predicate DueOnCutovers(kind: Kind, j: Id, p: nat)
    requires p < |Program(kind, j)|
  {
    var prog := Program(kind, j);
    match prog[p]
    case InsertCut(id) => id == j && p >= 1 && prog[p - 1] == TryTransition(Validated, CutoverInProgress)
    case SetCut(c, state) =>
      if state == Draining then p >= 1 && prog[p - 1] == InsertCut(c)
      else state == Switching && p >= 1 && (prog[p - 1] == InsertCut(c) || prog[p - 1] == TornDown)
    case FinishCut(c, state) =>
      && (state == Complete || state == CutFailed || state == CutRolledBack) && p >= 1
      && (state == Complete ==> prog[p - 1] == SetCut(c, Switching))
      && (state == CutFailed ==> prog[p - 1] == PastDeadline(c))
      && (state == CutRolledBack ==> prog[p - 1] == FoundCut(c))
    case _ => true
  }

  predicate DueOnOthers(kind: Kind, j: Id, p: nat)
    requires p < |Program(kind, j)|
  {
    var prog := Program(kind, j);
    match prog[p]
    case InsertEdge(id) => id == j && p >= 1 && prog[p - 1] == TryTransition(Assessed, Provisioning)
    case SetEdge(id) => p >= 1 && prog[p - 1] == InsertEdge(id)
    case ReadyEdge(e) =>
      || (p >= 1 && prog[p - 1] == SetEdge(e))
      || (p >= 2 && prog[p - 1] == Saw(true) && prog[p - 2] == FoundProvisioning(e))
    case DeleteEdge(e) => p >= 1 && prog[p - 1] == SetEdge(e)
    case InsertValidation(id) => id == j && p >= 1 && prog[p - 1] == SetPlan(Validating)
    case RecordValidation(v, passed) =>
      || (p >= 2 && prog[p - 1] == Saw(passed) && prog[p - 2] == FoundRunning(v))
      || (passed && p >= 1 && prog[p - 1] == InsertValidation(v))
      || (passed && p >= 2 && prog[p - 1] == NeedsEdge(true) && prog[p - 2] == InsertValidation(v))
    case _ => true
  }

  lemma AlwaysDueOnStreams(kind: Kind, j: Id, p: nat)
    requires p < |Program(kind, j)|
    ensures DueOnStreams(kind, j, p)
  {
  }

  lemma AlwaysDueOnCutovers(kind: Kind, j: Id, p: nat)
    requires p < |Program(kind, j)|
    ensures DueOnCutovers(kind, j, p)
  {
  }

  lemma AlwaysDueOnOthers(kind: Kind, j: Id, p: nat)
    requires p < |Program(kind, j)|
    ensures DueOnOthers(kind, j, p)
  {
  }

  /** The same of the trace of every run: what the statement at `k` needs was done before by the run that
      makes it. */
  ghost predicate StreamWarranted(s: State, k: nat)
    requires k < |s.trace| && s.trace[k].job < |s.jobs|
  {
    var trace, kind := s.trace, s.jobs[s.trace[k].job].kind;
    match trace[k].stmt
    case InsertStream(_) => Done(trace, k, TryTransition(Loaded, CdcStreaming))
    case PointAt(id) => Done(trace, k, InsertStream(id))
    case SetStream(id, state) => state == Streaming && Done(trace, k, PointAt(id))
    case SetReadStream(state) =>
      if state == Streaming then Done(trace, k, NeedsStream)
      else state == Stopped && (kind.StopCdc? || Done(trace, k, SetPlan(CutoverComplete)))
    case SetLag(id, bytes, seconds) =>
      || kind == LagMeasured(id, bytes, seconds)
      || (bytes == 536870912 && seconds == 45 && Done(trace, k, SetStream(id, Streaming)))
    case SetReadLag(bytes, seconds) =>
      bytes == 268435456 && seconds == 30 && Done(trace, k, SetReadStream(Streaming))
    case _ => true
  }

  ghost predicate CutoverWarranted(s: State, k: nat)
    requires k < |s.trace| && s.trace[k].job < |s.jobs|
  {
    var trace := s.trace;
    match trace[k].stmt
    case InsertCut(_) => Done(trace, k, TryTransition(Validated, CutoverInProgress))
    case SetCut(c, state) =>
      if state == Draining then Done(trace, k, InsertCut(c))
      else state == Switching && (Done(trace, k, InsertCut(c)) || Done(trace, k, TornDown))
    case FinishCut(c, state) =>
      && (state == Complete || state == CutFailed || state == CutRolledBack)
      && (state == Complete ==> Done(trace, k, SetCut(c, Switching)))
      && (state == CutFailed ==> Done(trace, k, PastDeadline(c)))
      && (state == CutRolledBack ==> Done(trace, k, FoundCut(c)))
    case _ => true
  }

  ghost predicate OtherWarranted(s: State, k: nat)
    requires k < |s.trace| && s.trace[k].job < |s.jobs|
  {
    var trace := s.trace;
    match trace[k].stmt
    case InsertEdge(_) => Done(trace, k, TryTransition(Assessed, Provisioning))
    case SetEdge(id) => Done(trace, k, InsertEdge(id))
    case ReadyEdge(e) =>
      || Done(trace, k, SetEdge(e))
      || (Done(trace, k, FoundProvisioning(e)) && Done(trace, k, Saw(true)))
    case DeleteEdge(e) => Done(trace, k, SetEdge(e))
    case InsertValidation(_) => Done(trace, k, SetPlan(Validating))
    case RecordValidation(v, passed) =>
      || (Done(trace, k, FoundRunning(v)) && Done(trace, k, Saw(passed)))
      || (passed && Done(trace, k, InsertValidation(v)))
    case _ => true
  }

  /** The statement at `k`, and the two before it in its program, as far as there are any. */
  ghost predicate Placed(s: State, k: nat, prog: seq<Stmt>)
    requires k < |s.trace|
  {
    var p := s.trace[k].pc;
    && p < |prog| && s.trace[k].stmt == prog[p]
    && (p >= 1 ==> Done(s.trace, k, prog[p - 1]))
    && (p >= 2 ==> Done(s.trace, k, prog[p - 2]))
  }

  lemma DueOnStreamsWarrants(s: State, k: nat, kind: Kind, j: Id)
    requires k < |s.trace| && s.trace[k].job == j < |s.jobs| && s.jobs[j].kind == kind
    requires Placed(s, k, Program(kind, j))
    ensures StreamWarranted(s, k)
  {
    AlwaysDueOnStreams(kind, j, s.trace[k].pc);
  }

  lemma DueOnCutoversWarrants(s: State, k: nat, kind: Kind, j: Id)
    requires k < |s.trace| && s.trace[k].job == j < |s.jobs| && s.jobs[j].kind == kind
    requires Placed(s, k, Program(kind, j))
    ensures CutoverWarranted(s, k)
  {
    AlwaysDueOnCutovers(kind, j, s.trace[k].pc);
  }

  lemma DueOnOthersWarrants(s: State, k: nat, kind: Kind, j: Id)
    requires k < |s.trace| && s.trace[k].job == j < |s.jobs| && s.jobs[j].kind == kind
    requires Placed(s, k, Program(kind, j))
    ensures OtherWarranted(s, k)
  {
    AlwaysDueOnOthers(kind, j, s.trace[k].pc);
  }

  /** In every run, every write to a row is warranted. */
  lemma WritesAreWarranted(steps: seq<Step>, k: nat)
    requires IsRun(INIT, steps) && k < |After(INIT, steps).trace|
    ensures var s := After(INIT, steps);
            s.trace[k].job < |s.jobs| && StreamWarranted(s, k) && CutoverWarranted(s, k) && OtherWarranted(s, k)
  {
    var s := After(INIT, steps);
    RunKeepsTraced(INIT, steps);
    IsPlaced(s, k);
    var j := s.trace[k].job;
    DueOnStreamsWarrants(s, k, s.jobs[j].kind, j);
    DueOnCutoversWarrants(s, k, s.jobs[j].kind, j);
    DueOnOthersWarrants(s, k, s.jobs[j].kind, j);
  }

  lemma IsPlaced(s: State, k: nat)
    requires Traced(s) && k < |s.trace|
    ensures s.trace[k].job < |s.jobs| && Placed(s, k, Program(s.jobs[s.trace[k].job].kind, s.trace[k].job))
  {
    var e := s.trace[k];
    assert EventTraced(s, k) && JobTraced(s, e.job);
    if e.pc >= 1 { DidAllBefore(s, k, e.pc - 1); }
    if e.pc >= 2 { DidAllBefore(s, k, e.pc - 2); }
  }

  /** Statements that go by the stream or the edge cluster the plan pointed at. */
  predicate GoesByThePlan(stmt: Stmt) {
    || stmt.SetReadStream? || stmt.SetReadLag? || stmt.NeedsStream? || stmt.NeedsEdge?
    || stmt == SeeDrained || stmt == SeeLagging
  }

  lemma ReadsFirst(kind: Kind, j: Id, p: nat) returns (i: nat)
    requires p < |Program(kind, j)| && GoesByThePlan(Program(kind, j)[p])
    ensures i < p && Program(kind, j)[i] == ReadPlan
  {
    i := if Program(kind, j)[0] == ReadPlan then 0 else 1;
  }

  /** In every run, such a statement goes by what the same run read from the plan before. */
  lemma WhatWasReadIsUsed(steps: seq<Step>, k: nat) returns (q: nat)
    requires IsRun(INIT, steps) && k < |After(INIT, steps).trace|
    requires GoesByThePlan(After(INIT, steps).trace[k].stmt)
    ensures LooksAtThePlansStream(After(INIT, steps).trace, After(INIT, steps).trace[k].job, q, k)
  {
    var s := After(INIT, steps);
    RunKeepsReads(INIT, steps);
    var j, p := s.trace[k].job, s.trace[k].pc;
    assert EventTraced(s, k) && JobTraced(s, j);
    var i := ReadsFirst(s.jobs[j].kind, j, p);
    q := s.jobs[j].at[i];
    LooksAfterReading(s, j, i, p);
  }

  // ---- A run that gets to its end has done its work ----

  /** What a finished run of each kind has done. */
  function Work(kind: Kind, j: Id): (r: set<Stmt>) {
    match kind
    case Discover => {TryTransition(Draft, Discovered)}
    case Assess => {SetPlan(Assessed)}
    case ProvisionFake => {InsertEdge(j), SetEdge(j), ReadyEdge(j), SetPlan(Provisioned)}
    case ProvisionReal => {InsertEdge(j), SetEdge(j)}
    case ProvisionRefused => {DeleteEdge(j), SetPlan(Assessed)}
    case FullLoadInline => {SetPlan(Loaded)}
    case FullLoadBatch => {SetPlan(FullLoading)}
    case StartCdcFake => {InsertStream(j), PointAt(j), SetStream(j, Streaming), SetLag(j, 536870912, 45)}
    case StartCdcReal => {InsertStream(j), PointAt(j), SetStream(j, Streaming)}
    case StopCdc => {SetReadStream(Stopped)}
    case RestartCdcFake => {SetReadStream(Streaming), SetReadLag(268435456, 30)}
    case RestartCdcReal => {SetReadStream(Streaming)}
    case ValidateInline => {InsertValidation(j), RecordValidation(j, true), SetPlan(Validated)}
    case ValidateBatch => {InsertValidation(j), NeedsEdge(true)}
    case ValidateAdvisory => {InsertValidation(j), NeedsEdge(true), RecordValidation(j, true), SetPlan(Validated)}
    case CutoverFake =>
      {NeedsEdge(false), InsertCut(j), FinishCut(j, Complete), SetPlan(CutoverComplete), SetReadStream(Stopped)}
    case CutoverReal => {NeedsEdge(false), InsertCut(j), SetCut(j, Draining)}
    case RollbackCut(c) => {FinishCut(c, CutRolledBack), SetPlan(RolledBack)}
    case RollbackNoCut => {SetPlan(RolledBack)}
    case EdgeReady(e) => {ReadyEdge(e), SetPlan(Provisioned)}
    case LoadSucceeded => {SetPlan(Loaded)}
    case LoadFailed => {SetPlan(Failed)}
    case LagMeasured(st, bytes, seconds) => {FoundStreaming(st), SetLag(st, bytes, seconds)}
    case DrainComplete(c) => {FinishCut(c, Complete), SetPlan(CutoverComplete), SetReadStream(Stopped)}
    case DrainExpired(c) => {FinishCut(c, CutFailed), SetPlan(Validated)}
    case ValidationPassed(v) => {RecordValidation(v, true), SetPlan(Validated)}
    case ValidationFailed(v) => {RecordValidation(v, false), SetPlan(Failed)}
  }

  lemma WorkIsInTheProgram(kind: Kind, j: Id, stmt: Stmt) returns (i: nat)
    requires stmt in Work(kind, j)
    ensures i < |Program(kind, j)| && Program(kind, j)[i] == stmt
  {
    assert stmt in Program(kind, j);
    i :| i < |Program(kind, j)| && Program(kind, j)[i] == stmt;
  }

  /** In every run, a stage job or pass that has got to its end has done its work. */
  lemma FinishedRunsDidTheirWork(steps: seq<Step>, j: Id, stmt: Stmt)
    requires IsRun(INIT, steps) && j < |After(INIT, steps).jobs|
    requires var job := After(INIT, steps).jobs[j];
             |job.at| == |Program(job.kind, j)| && stmt in Work(job.kind, j)
    ensures exists k :: Did(After(INIT, steps).trace, k, j, stmt)
  {
    var s := After(INIT, steps);
    RunKeepsTraced(INIT, steps);
    assert JobTraced(s, j);
    var i := WorkIsInTheProgram(s.jobs[j].kind, j, stmt);
    assert Did(s.trace, s.jobs[j].at[i], j, stmt);
  }
}
