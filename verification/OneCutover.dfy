/** How many cutovers of one plan drain at once, over every interleaving of its stage jobs and the
    reconciler's passes. */
module OneCutover {
  import opened Options
  import opened DataBridge

  // ---- Runs put together ----

  lemma {:induction false} Extend(s: State, steps: seq<Step>, step: Step)
    requires IsRun(s, steps) && Enabled(After(s, steps), step)
    ensures IsRun(s, steps + [step])
    ensures After(s, steps + [step]) == Apply(After(s, steps), step)
    decreases |steps|
  {
    if steps == [] {
      assert steps + [step] == [step] && [step][1..] == [];
      assert IsRun(Apply(s, step), []);
    } else {
      assert (steps + [step])[1..] == steps[1..] + [step];
      Extend(Apply(s, steps[0]), steps[1..], step);
    }
  }

  /** The plan's edge cluster exists; it is ready. */
  predicate EdgeIsThere(s: State) {
    s.edge.Some? && s.edge.value in s.edges
  }

  predicate EdgeIsReady(s: State) {
    EdgeIsThere(s) && s.edges[s.edge.value]
  }

  /** A run of this kind, started now and left alone, gets to its end. */
  predicate Possible(s: State, kind: Kind) {
    match kind
    case Assess => true
    case ProvisionReal => s.plan == Assessed
    case EdgeReady(e) => e in s.edges && !s.edges[e]
    case ValidateAdvisory => EdgeIsReady(s)
    case CutoverReal => s.plan == Validated && EdgeIsThere(s)
    case _ => false
  }

  /** `t` is `s` after `n` statements of a run of its own. */
  ghost predicate Alone(s: State, t: State, kind: Kind, n: nat) {
    var j := |s.jobs|;
    && |t.jobs| == j + 1 && t.jobs[..j] == s.jobs && t.clock == s.clock
    && t.jobs[j].kind == kind && t.jobs[j].alive && |t.jobs[j].at| == n
    && (kind != CutoverReal ==> t.cuts == s.cuts)
    && match kind
       case Assess => n > 0 ==> t.plan == Assessed
       case ProvisionReal =>
         && t.plan == (if n == 0 then Assessed else Provisioning)
         && t.edges == (if n < 2 then s.edges else s.edges[j := false])
         && (n == 3 ==> t.edge == Some(j))
       case EdgeReady(e) => t.edge == s.edge && t.edges == (if n < 3 then s.edges else s.edges[e := true])
       case ValidateAdvisory =>
         && t.edges == s.edges && t.edge == s.edge && (n > 0 ==> t.jobs[j].edge == s.edge)
         && (n == 6 ==> t.plan == Validated)
       case CutoverReal =>
         && t.edges == s.edges && t.edge == s.edge && (n > 0 ==> t.jobs[j].edge == s.edge)
         && (n < 3 ==> t.plan == Validated)
         && t.cuts == if n < 4 then s.cuts
                      else s.cuts[j := Cut(if n == 4 then Freezing else Draining, s.clock + DRAIN_MS)]
       case _ => true
  }

  lemma AssessGoesOn(s: State, t: State, n: nat)
    requires Alone(s, t, Assess, n) && n < 1
    ensures Enabled(t, Run(|s.jobs|)) && Alone(s, Apply(t, Run(|s.jobs|)), Assess, n + 1)
  {
  }

  lemma ProvisionGoesOn(s: State, t: State, n: nat)
    requires s.plan == Assessed && Alone(s, t, ProvisionReal, n) && n < 3
    ensures Enabled(t, Run(|s.jobs|)) && Alone(s, Apply(t, Run(|s.jobs|)), ProvisionReal, n + 1)
  {
  }

  lemma EdgeReadyGoesOn(s: State, t: State, e: Id, n: nat)
    requires Possible(s, EdgeReady(e)) && Alone(s, t, EdgeReady(e), n) && n < 4
    ensures Enabled(t, Run(|s.jobs|)) && Alone(s, Apply(t, Run(|s.jobs|)), EdgeReady(e), n + 1)
  {
  }

  lemma ValidateGoesOn(s: State, t: State, n: nat)
    requires EdgeIsReady(s) && Alone(s, t, ValidateAdvisory, n) && n < 6
    ensures Enabled(t, Run(|s.jobs|)) && Alone(s, Apply(t, Run(|s.jobs|)), ValidateAdvisory, n + 1)
  {
  }

  lemma CutoverGoesOn(s: State, t: State, n: nat)
    requires EdgeIsThere(s) && Alone(s, t, CutoverReal, n) && n < 5
    ensures Enabled(t, Run(|s.jobs|)) && Alone(s, Apply(t, Run(|s.jobs|)), CutoverReal, n + 1)
  {
  }

  lemma GoesOn(s: State, t: State, kind: Kind, n: nat)
    requires Possible(s, kind) && Alone(s, t, kind, n) && n < |Program(kind, |s.jobs|)|
    ensures Enabled(t, Run(|s.jobs|)) && Alone(s, Apply(t, Run(|s.jobs|)), kind, n + 1)
  {
    match kind
    case Assess => AssessGoesOn(s, t, n);
    case ProvisionReal => ProvisionGoesOn(s, t, n);
    case EdgeReady(e) => EdgeReadyGoesOn(s, t, e, n);
    case ValidateAdvisory => ValidateGoesOn(s, t, n);
    case CutoverReal => CutoverGoesOn(s, t, n);
  }

  lemma PlayAlone(s: State, kind: Kind) returns (steps: seq<Step>)
    requires Possible(s, kind)
    ensures IsRun(s, steps) && Alone(s, After(s, steps), kind, |Program(kind, |s.jobs|)|)
  {
    var j := |s.jobs|;
    steps := [];
    Extend(s, steps, Launch(kind));
    steps := steps + [Launch(kind)];
    for n := 0 to |Program(kind, j)|
      invariant IsRun(s, steps) && Alone(s, After(s, steps), kind, n)
    {
      GoesOn(s, After(s, steps), kind, n);
      Extend(s, steps, Run(j));
      steps := steps + [Run(j)];
    }
  }

  lemma {:induction false} Concatenate(s: State, a: seq<Step>, b: seq<Step>)
    requires IsRun(s, a) && IsRun(After(s, a), b)
    ensures IsRun(s, a + b) && After(s, a + b) == After(After(s, a), b)
    decreases |a|
  {
    if a == [] {
      assert a + b == b;
    } else {
      assert (a + b)[1..] == a[1..] + b;
      Concatenate(Apply(s, a[0]), a[1..], b);
    }
  }

  /** `t` is a state later than `s` in which the cutovers and the runs of `s` are as they were. */
  predicate LeftAlone(s: State, t: State) {
    t.cuts == s.cuts && |s.jobs| <= |t.jobs| && t.jobs[..|s.jobs|] == s.jobs
  }

  lemma ThenAlone(s: State, steps: seq<Step>, kind: Kind) returns (longer: seq<Step>)
    requires IsRun(s, steps) && LeftAlone(s, After(s, steps)) && Possible(After(s, steps), kind) && kind != CutoverReal
    ensures IsRun(s, longer)
    ensures var t := After(s, steps);
            LeftAlone(s, After(s, longer)) && Alone(t, After(s, longer), kind, |Program(kind, |t.jobs|)|)
  {
    var t := After(s, steps);
    var more := PlayAlone(t, kind);
    Concatenate(s, steps, more);
    longer := steps + more;
    var u := After(s, longer);
    assert u.jobs[..|s.jobs|] == u.jobs[..|t.jobs|][..|s.jobs|];
  }

  /** From any state the plan can be provisioned, if need be, and validated, whatever else is under way:
      assessing and validating write its state unconditionally. */
  lemma Prepare(s: State) returns (steps: seq<Step>)
    ensures IsRun(s, steps)
    ensures var t := After(s, steps); LeftAlone(s, t) && t.plan == Validated && EdgeIsThere(t)
  {
    steps := [];
    if !EdgeIsReady(s) {
      steps := ThenAlone(s, steps, Assess);
      steps := ThenAlone(s, steps, ProvisionReal);
      var e := After(s, steps).edge.value;
      steps := ThenAlone(s, steps, EdgeReady(e));
    }
    steps := ThenAlone(s, steps, ValidateAdvisory);
  }

  /** A run inserts a cutover under its own id only. */
  lemma CutsAreOwn(kind: Kind, j: Id, p: nat, c: Id)
    requires p < |Program(kind, j)| && Program(kind, j)[p] == InsertCut(c)
    ensures c == j
  {
  }

  /** Cutover ids are run ids, and a run past its insert has its row. */
  ghost predicate RowsExist(s: State) {
    && (forall c | c in s.cuts :: c < |s.jobs|)
    && (forall j | 0 <= j < |s.jobs| && s.jobs[j].kind == CutoverReal && |s.jobs[j].at| >= 4 :: j in s.cuts)
  }

  lemma EffectKeepsCuts(s: State, job: Job, stmt: Stmt, c: Id)
    ensures c in Effect(s, job, stmt).cuts <==> c in s.cuts || stmt == InsertCut(c)
  {
  }

  lemma StepKeepsRows(s: State, step: Step)
    requires RowsExist(s) && Enabled(s, step)
    ensures RowsExist(Apply(s, step))
  {
    var t := Apply(s, step);
    if step.Run? && Succeeds(s, s.jobs[step.job], NextStmt(s, step.job)) {
      var j, stmt := step.job, NextStmt(s, step.job);
      forall c | c in t.cuts ensures c < |t.jobs| {
        EffectKeepsCuts(s, s.jobs[j], stmt, c);
        if stmt == InsertCut(c) { CutsAreOwn(s.jobs[j].kind, j, |s.jobs[j].at|, c); }
      }
      forall i | 0 <= i < |t.jobs| && t.jobs[i].kind == CutoverReal && |t.jobs[i].at| >= 4 ensures i in t.cuts {
        EffectKeepsCuts(s, s.jobs[j], stmt, i);
      }
    }
  }

  lemma {:induction false} RunKeepsRows(s: State, steps: seq<Step>)
    requires RowsExist(s) && IsRun(s, steps)
    ensures RowsExist(After(s, steps))
    decreases |steps|
  {
    if steps != [] {
      StepKeepsRows(s, steps[0]);
      RunKeepsRows(Apply(s, steps[0]), steps[1..]);
    }
  }

  // ---- One cutover at a time ----

  predicate IsDraining(s: State, c: Id) {
    c in s.cuts && s.cuts[c].state == Draining
  }

  /** A real-mode cutover run that has won the plan and is about to insert its row or set it draining. */
  predicate IsPending(s: State, j: Id) {
    j < |s.jobs| && s.jobs[j].kind == CutoverReal && s.jobs[j].alive && 3 <= |s.jobs[j].at| < 5
  }

  /** A cutover that is draining, or will be if its run goes on. */
  predicate Busy(s: State, c: Id) {
    IsDraining(s, c) || IsPending(s, c)
  }

  /** A step that moves the plan into `validated` while some cutover is busy. */
  ghost predicate Reopens(s: State, step: Step)
    requires Enabled(s, step)
  {
    s.plan != Validated && Apply(s, step).plan == Validated && exists c :: Busy(s, c)
  }

  ghost predicate NeverReopens(s: State, steps: seq<Step>)
    requires IsRun(s, steps)
    decreases |steps|
  {
    steps == [] || (!Reopens(s, steps[0]) && NeverReopens(Apply(s, steps[0]), steps[1..]))
  }

  /** Nothing is busy while the plan is up for a cutover, and at most one cutover is otherwise. */
  ghost predicate Exclusive(s: State) {
    && (forall c, d | Busy(s, c) && Busy(s, d) :: c == d)
    && (s.plan == Validated ==> forall c :: !Busy(s, c))
  }

  /** Only a cutover run's last statement sets a row draining. */
  lemma DrainingIsSetLast(kind: Kind, j: Id, p: nat, c: Id)
    requires p < |Program(kind, j)|
    requires Program(kind, j)[p] == SetCut(c, Draining) || Program(kind, j)[p] == FinishCut(c, Draining)
    ensures kind == CutoverReal && p == 4 && c == j
  {
  }

  lemma NewlyDraining(s: State, job: Job, stmt: Stmt, c: Id)
    requires IsDraining(Effect(s, job, stmt), c) && !IsDraining(s, c)
    ensures stmt == SetCut(c, Draining) || stmt == FinishCut(c, Draining)
  {
  }

  /** A step makes a cutover busy only by winning the plan. */
  lemma NewlyBusy(s: State, step: Step, c: Id)
    requires Enabled(s, step) && Busy(Apply(s, step), c) && !Busy(s, c)
    ensures s.plan == Validated && Apply(s, step).plan == CutoverInProgress && step == Run(c)
  {
    var t := Apply(s, step);
    if step.Run? && Succeeds(s, s.jobs[step.job], NextStmt(s, step.job)) {
      var j, stmt := step.job, NextStmt(s, step.job);
      if IsDraining(t, c) {
        NewlyDraining(s, s.jobs[j], stmt, c);
        DrainingIsSetLast(s.jobs[j].kind, j, |s.jobs[j].at|, c);
        assert false;
      }
    }
  }

  lemma StepKeepsExclusive(s: State, step: Step)
    requires Exclusive(s) && Enabled(s, step) && !Reopens(s, step)
    ensures Exclusive(Apply(s, step))
  {
    var t := Apply(s, step);
    forall c, d | Busy(t, c) && Busy(t, d) ensures c == d {
      if !Busy(s, c) { NewlyBusy(s, step, c); }
      if !Busy(s, d) { NewlyBusy(s, step, d); }
    }
    if t.plan == Validated {
      forall c ensures !Busy(t, c) {
        if Busy(t, c) && !Busy(s, c) { NewlyBusy(s, step, c); }
      }
    }
  }

  lemma {:induction false} RunKeepsExclusive(s: State, steps: seq<Step>)
    requires Exclusive(s) && IsRun(s, steps) && NeverReopens(s, steps)
    ensures Exclusive(After(s, steps))
    decreases |steps|
  {
    if steps != [] {
      StepKeepsExclusive(s, steps[0]);
      RunKeepsExclusive(Apply(s, steps[0]), steps[1..]);
    }
  }

  /** In every run that never moves the plan into `validated` while a cutover is draining or about to,
      at most one cutover drains at a time. */
  lemma OneCutoverAtATime(steps: seq<Step>, c: Id, d: Id)
    requires IsRun(INIT, steps) && NeverReopens(INIT, steps)
    requires IsDraining(After(INIT, steps), c) && IsDraining(After(INIT, steps), d)
    ensures c == d
  {
    RunKeepsExclusive(INIT, steps);
    assert Busy(After(INIT, steps), c) && Busy(After(INIT, steps), d);
  }

  // ---- And only then ----

  ghost predicate TwoDraining(s: State) {
    exists c, d :: c != d && IsDraining(s, c) && IsDraining(s, d)
  }

  /** Entering `validated` is the work of a run that is not itself a cutover, and leaves cutovers alone. */
  lemma EntryLeavesBusy(s: State, step: Step, c: Id)
    requires Enabled(s, step) && s.plan != Validated && Apply(s, step).plan == Validated && Busy(s, c)
    ensures Busy(Apply(s, step), c)
  {
    EntryIsAWrite(s, step);
    var j := step.job;
    OnlyValidationsAndExpiries(s.jobs[j].kind, j, |s.jobs[j].at|);
    assert Apply(s, step).cuts == s.cuts;
  }

  lemma EntryIsAWrite(s: State, step: Step)
    requires Enabled(s, step) && s.plan != Validated && Apply(s, step).plan == Validated
    ensures step.Run? && Succeeds(s, s.jobs[step.job], NextStmt(s, step.job))
    ensures NextStmt(s, step.job) == SetPlan(Validated) || NextStmt(s, step.job) == TryTransition(s.plan, Validated)
  {
    if step.Run? && Succeeds(s, s.jobs[step.job], NextStmt(s, step.job)) {
      PlanIsWritten(s, s.jobs[step.job], NextStmt(s, step.job));
    }
  }

  /** A pending run that goes on by itself ends up draining and disturbs no other cutover. */
  lemma FinishPending(s: State, j: Id) returns (steps: seq<Step>)
    requires RowsExist(s) && IsPending(s, j)
    ensures IsRun(s, steps) && IsDraining(After(s, steps), j)
    ensures forall c | c != j && IsDraining(s, c) :: IsDraining(After(s, steps), c)
  {
    steps := [];
    if |s.jobs[j].at| == 3 {
      PendingInserts(s, j);
      Extend(s, steps, Run(j));
      steps := steps + [Run(j)];
    }
    PendingDrains(After(s, steps), j);
    Extend(s, steps, Run(j));
    steps := steps + [Run(j)];
  }

  lemma PendingInserts(s: State, j: Id)
    requires IsPending(s, j) && |s.jobs[j].at| == 3
    ensures Enabled(s, Run(j))
    ensures var t := Apply(s, Run(j));
            && IsPending(t, j) && |t.jobs[j].at| == 4 && j in t.cuts
            && forall c | c != j && IsDraining(s, c) :: IsDraining(t, c)
  {
    assert NextStmt(s, j) == InsertCut(j);
  }

  lemma PendingDrains(s: State, j: Id)
    requires IsPending(s, j) && |s.jobs[j].at| == 4 && j in s.cuts
    ensures Enabled(s, Run(j))
    ensures var t := Apply(s, Run(j));
            IsDraining(t, j) && forall c | c != j && IsDraining(s, c) :: IsDraining(t, c)
  {
    assert NextStmt(s, j) == SetCut(j, Draining);
  }

  /** From a state up for a cutover with another one busy. */
  lemma SecondCutover(s: State, c: Id) returns (steps: seq<Step>)
    requires RowsExist(s) && s.plan == Validated && EdgeIsThere(s) && Busy(s, c)
    ensures IsRun(s, steps) && TwoDraining(After(s, steps))
  {
    steps := PlayAlone(s, CutoverReal);
    var t := After(s, steps);
    var n := |s.jobs|;
    assert IsDraining(t, n);
    if IsDraining(s, c) {
      assert IsDraining(t, c);
    } else {
      assert t.jobs[c] == t.jobs[..n][c] == s.jobs[c];
      RunKeepsRows(s, steps);
      var more := FinishPending(t, c);
      Concatenate(s, steps, more);
      steps := steps + more;
      assert IsDraining(After(s, steps), n);
    }
  }

  lemma PreparedSecondCutover(s: State, c: Id) returns (steps: seq<Step>)
    requires RowsExist(s) && Busy(s, c)
    ensures IsRun(s, steps) && TwoDraining(After(s, steps))
  {
    var a := Prepare(s);
    var t := After(s, a);
    RunKeepsRows(s, a);
    if IsPending(s, c) { assert t.jobs[c] == t.jobs[..|s.jobs|][c]; }
    assert Busy(t, c);
    var b := SecondCutover(t, c);
    Concatenate(s, a, b);
    steps := a + b;
  }

  /** From every reachable state: a step that breaks the condition can be followed by a second cutover
      that drains beside the first. */
  lemma ReopeningAdmitsTwo(steps: seq<Step>, step: Step)
    requires IsRun(INIT, steps) && Enabled(After(INIT, steps), step) && Reopens(After(INIT, steps), step)
    ensures exists more :: IsRun(INIT, (steps + [step]) + more) && TwoDraining(After(INIT, (steps + [step]) + more))
  {
    var s := After(INIT, steps);
    var c :| Busy(s, c);
    EntryLeavesBusy(s, step, c);
    RunKeepsRows(INIT, steps);
    StepKeepsRows(s, step);
    Extend(INIT, steps, step);
    var t := Apply(s, step);
    if EdgeIsThere(t) {
      var more := SecondCutover(t, c);
      Concatenate(INIT, steps + [step], more);
    } else {
      var more := PreparedSecondCutover(t, c);
      Concatenate(INIT, steps + [step], more);
    }
  }

  /** And such a step is always at hand: from every reachable state with a draining cutover, another
      validation and another cutover request lead to two draining at once, since `validate` writes the
      plan's state unconditionally. */
  lemma RevalidationAdmitsASecondCutover(steps: seq<Step>, c: Id)
    requires IsRun(INIT, steps) && IsDraining(After(INIT, steps), c)
    ensures exists more :: IsRun(INIT, steps + more) && TwoDraining(After(INIT, steps + more))
  {
    var s := After(INIT, steps);
    RunKeepsRows(INIT, steps);
    var more := PreparedSecondCutover(s, c);
    Concatenate(INIT, steps, more);
  }

  /** A draining cutover is reachable: assess, provision, wait for the edge cluster, validate, cut over. */
  lemma DrainingIsReachable() returns (steps: seq<Step>, c: Id)
    ensures IsRun(INIT, steps) && IsDraining(After(INIT, steps), c)
  {
    var a := Prepare(INIT);
    c := |After(INIT, a).jobs|;
    var b := PlayAlone(After(INIT, a), CutoverReal);
    Concatenate(INIT, a, b);
    steps := a + b;
  }
}
