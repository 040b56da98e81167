/** The per-replica fixed-window limiter, the shared counter table, and the background sync between
    them, for any number of replicas. Counts are `u32` and wrap as in the release profile. */
module RateLimiter {

  type Actor = string

  const U32: nat := 0x1_0000_0000

  datatype Window = Window(minute: nat, count: nat)

  /** `flags[a]`: the minute `a` was last confirmed over the cluster-wide budget for. */
  datatype Limiter = Limiter(windows: map<Actor, Window>, flags: map<Actor, nat>)

  predicate Flagged(l: Limiter, a: Actor, minute: nat) {
    a in l.flags && l.flags[a] == minute
  }

  /** The actor's window after one more request in `minute`. */
  function Bumped(l: Limiter, a: Actor, minute: nat): (r: Window) {
    var count := if a in l.windows && l.windows[a].minute == minute then l.windows[a].count else 0;
    Window(minute, (count + 1) % U32)
  }

  predicate Allows(l: Limiter, rpm: nat, a: Actor, minute: nat) {
    rpm == 0 || (!Flagged(l, a, minute) && Bumped(l, a, minute).count <= rpm)
  }

  /** A flagged request is refused before it is counted. */
  function AfterRequest(l: Limiter, rpm: nat, a: Actor, minute: nat): (r: Limiter) {
    if rpm == 0 || Flagged(l, a, minute) then l else l.(windows := l.windows[a := Bumped(l, a, minute)])
  }

  function Snapshot(l: Limiter, minute: nat): (r: map<Actor, nat>) {
    map a | a in l.windows && l.windows[a].minute == minute :: l.windows[a].count
  }

  /** Only this minute's flags are kept, and `over` is flagged for it. */
  function Reflag(flags: map<Actor, nat>, minute: nat, over: set<Actor>): (r: map<Actor, nat>) {
    (map a | a in flags && flags[a] == minute :: flags[a]) + (map a | a in over :: minute)
  }

  function WithFlags(l: Limiter, minute: nat, over: set<Actor>): (r: Limiter) {
    l.(flags := Reflag(l.flags, minute, over))
  }

  /** The limiter's two maps, changed in place. */
  class Process {
    const rpm: nat
    var windows: map<Actor, Window>
    var globallyLimited: map<Actor, nat>

    ghost function Value(): Limiter
      reads this
    {
      Limiter(windows, globallyLimited)
    }

    constructor (rpm: nat)
      ensures this.rpm == rpm && Value() == Limiter(map[], map[])
    {
      this.rpm := rpm;
      windows, globallyLimited := map[], map[];
    }

    method Allow(actor: Actor, minute: nat) returns (ok: bool)
      modifies this
      ensures Value() == AfterRequest(old(Value()), rpm, actor, minute)
      ensures ok == Allows(old(Value()), rpm, actor, minute)
    {
      if rpm == 0 {
        return true;
      }
      if actor in globallyLimited && globallyLimited[actor] == minute {
        return false;
      }
      var entry := if actor in windows then windows[actor] else Window(minute, 0);
      if entry.minute != minute {
        entry := Window(minute, 0);
      }
      entry := entry.(count := (entry.count + 1) % U32);
      windows := windows[actor := entry];
      ok := entry.count <= rpm;
    }

    /** What the sync reports: this process's counts for the current minute. */
    method SnapshotCurrentWindow(minute: nat) returns (counts: map<Actor, nat>)
      ensures counts == Snapshot(Value(), minute)
      ensures forall a | a in counts :: a in windows && windows[a] == Window(minute, counts[a])
    {
      counts := map a | a in windows && windows[a].minute == minute :: windows[a].count;
    }

    /** Drops the flags of other minutes, then flags the listed actors one by one. */
    method SetGloballyLimited(minute: nat, actors: seq<Actor>)
      modifies this
      ensures Value() == WithFlags(old(Value()), minute, Members(actors))
    {
      ghost var before := globallyLimited;
      globallyLimited := map a | a in globallyLimited && globallyLimited[a] == minute :: globallyLimited[a];
      NoneFlagged(before, minute);
      for k := 0 to |actors|
        invariant windows == old(windows)
        invariant globallyLimited == Reflag(before, minute, Members(actors[..k]))
      {
        FlagOneMore(before, minute, actors, k);
        globallyLimited := globallyLimited[actors[k] := minute];
      }
      assert actors[..|actors|] == actors;
    }
  }

  function Members(actors: seq<Actor>): (r: set<Actor>) {
    set a | a in actors
  }

  lemma NoneFlagged(flags: map<Actor, nat>, minute: nat)
    ensures (map a | a in flags && flags[a] == minute :: flags[a]) == Reflag(flags, minute, {})
  {
  }

  lemma FlagOneMore(flags: map<Actor, nat>, minute: nat, actors: seq<Actor>, k: nat)
    requires k < |actors|
    ensures Reflag(flags, minute, Members(actors[..k + 1]))
         == Reflag(flags, minute, Members(actors[..k]))[actors[k] := minute]
  {
    assert actors[..k + 1] == actors[..k] + [actors[k]];
    assert Members(actors[..k + 1]) == Members(actors[..k]) + {actors[k]};
  }

  // ---- The shared table ----

  datatype Key = Key(actor: Actor, minute: nat, replica: nat)

  function Stored(table: map<Key, nat>, key: Key): (n: nat) {
    if key in table then table[key] else 0
  }

  /** `SUM(count)` for one actor and minute; every row belongs to one of the first `n` replicas. */
  function Total(table: map<Key, nat>, a: Actor, minute: nat, n: nat): (sum: nat) {
    if n == 0 then 0 else Total(table, a, minute, n - 1) + Stored(table, Key(a, minute, n - 1))
  }

  /** Actors the sync flags; the total is cast to `u32` before it is compared. */
  function OverBudget(table: map<Key, nat>, minute: nat, n: nat, rpm: nat): (r: set<Actor>) {
    set key | key in table && key.minute == minute && Total(table, key.actor, minute, n) % U32 > rpm :: key.actor
  }

  function PruneBefore(table: map<Key, nat>, minute: int): (r: map<Key, nat>) {
    map key | key in table && key.minute >= minute :: table[key]
  }

  // ---- The cluster ----

  /** Where a replica's sync loop is; each database statement is a step of its own. */
  datatype Sync =
    | Sleeping
    | Reporting(minute: nat, todo: map<Actor, nat>)
    | Flagging(minute: nat, over: set<Actor>)
    | Pruning(minute: nat)

  /** `now`: the replica's current minute; replicas' clocks need not agree. `since`: how many answers had
      been given when its process last started. */
  datatype Replica = Replica(now: nat, limiter: Limiter, sync: Sync, since: nat)

  datatype Decision = Decision(replica: nat, actor: Actor, minute: nat, ok: bool)

  const EMPTY := Limiter(map[], map[])

  datatype State = State(rpm: nat, replicas: seq<Replica>, table: map<Key, nat>, trace: seq<Decision>)

  function Init(rpm: nat, n: nat): (s: State) {
    State(rpm, seq(n, i => Replica(0, EMPTY, Sleeping, 0)), map[], [])
  }

  datatype Step =
    | Clock(r: nat, to: nat)
    | Request(r: nat, actor: Actor)
    | TakeSnapshot(r: nat)
    | Report(r: nat, actor: Actor, ok: bool)
    | ReadTotals(r: nat, ok: bool)
    | SetFlags(r: nat)
    | Prune(r: nat, ok: bool)
    | Restart(r: nat)

  /** A replica's clock does not go back; the sync loop runs only when the limiter is on. */
  predicate Enabled(s: State, step: Step) {
    && step.r < |s.replicas|
    && var p := s.replicas[step.r];
    match step
    case Clock(_, to) => p.now <= to
    case Request(_, _) => true
    case TakeSnapshot(_) => p.sync.Sleeping? && s.rpm > 0
    case Report(_, a, _) => p.sync.Reporting? && a in p.sync.todo
    case ReadTotals(_, _) => p.sync.Reporting? && p.sync.todo == map[]
    case SetFlags(_) => p.sync.Flagging?
    case Prune(_, _) => p.sync.Pruning?
    case Restart(_) => true
  }

  function Put(s: State, r: nat, p: Replica): (t: State)
    requires r < |s.replicas|
  {
    s.(replicas := s.replicas[r := p])
  }

  function Apply(s: State, step: Step): (t: State)
    requires Enabled(s, step)
  {
    var r := step.r;
    var p := s.replicas[r];
    match step
    case Clock(_, to) => Put(s, r, p.(now := to))
    case Request(_, a) =>
      Put(s, r, p.(limiter := AfterRequest(p.limiter, s.rpm, a, p.now)))
      .(trace := s.trace + [Decision(r, a, p.now, Allows(p.limiter, s.rpm, a, p.now))])
    case TakeSnapshot(_) => Put(s, r, p.(sync := Reporting(p.now, Snapshot(p.limiter, p.now))))
    case Report(_, a, ok) =>
      var t := Put(s, r, p.(sync := p.sync.(todo := p.sync.todo - {a})));
      if ok then t.(table := s.table[Key(a, p.sync.minute, r) := p.sync.todo[a]]) else t
    case ReadTotals(_, ok) =>
      Put(s, r, p.(sync := if ok then Flagging(p.sync.minute, OverBudget(s.table, p.sync.minute, |s.replicas|, s.rpm))
                           else Pruning(p.sync.minute)))
    case SetFlags(_) =>
      Put(s, r, p.(limiter := WithFlags(p.limiter, p.sync.minute, p.sync.over), sync := Pruning(p.sync.minute)))
    case Prune(_, ok) =>
      var t := Put(s, r, p.(sync := Sleeping));
      if ok then t.(table := PruneBefore(s.table, p.sync.minute - 5)) else t
    // the process loses its maps; its rows stay in the table, under the same id
    case Restart(_) => Put(s, r, Replica(p.now, EMPTY, Sleeping, |s.trace|))
  }

  predicate IsRun(s: State, steps: seq<Step>)
    decreases |steps|
  {
    steps == [] || (Enabled(s, steps[0]) && IsRun(Apply(s, steps[0]), steps[1..]))
  }

  function After(s: State, steps: seq<Step>): (t: State)
    requires IsRun(s, steps)
    decreases |steps|
  {
    if steps == [] then s else After(Apply(s, steps[0]), steps[1..])
  }

  // ---- Counting in the trace ----

  function One(b: bool): nat {
    if b then 1 else 0
  }

  predicate Same(d: Decision, r: nat, a: Actor, m: nat) {
    d.replica == r && d.actor == a && d.minute == m
  }

  /** Requests of `a` in minute `m` that replica `r` has answered. */
  function Attempts(trace: seq<Decision>, r: nat, a: Actor, m: nat): (n: nat) {
    if trace == [] then 0
    else Attempts(trace[..|trace| - 1], r, a, m) + One(Same(trace[|trace| - 1], r, a, m))
  }

  function Allowed(trace: seq<Decision>, r: nat, a: Actor, m: nat): (n: nat) {
    if trace == [] then 0
    else
      var d := trace[|trace| - 1];
      Allowed(trace[..|trace| - 1], r, a, m) + One(Same(d, r, a, m) && d.ok)
  }

  function ClusterAttempts(trace: seq<Decision>, a: Actor, m: nat, n: nat): (sum: nat) {
    if n == 0 then 0 else ClusterAttempts(trace, a, m, n - 1) + Attempts(trace, n - 1, a, m)
  }

  function ClusterAllowed(trace: seq<Decision>, a: Actor, m: nat, n: nat): (sum: nat) {
    if n == 0 then 0 else ClusterAllowed(trace, a, m, n - 1) + Allowed(trace, n - 1, a, m)
  }

  lemma AppendAttempt(trace: seq<Decision>, d: Decision, r: nat, a: Actor, m: nat)
    ensures Attempts(trace + [d], r, a, m) == Attempts(trace, r, a, m) + One(Same(d, r, a, m))
    ensures Allowed(trace + [d], r, a, m) == Allowed(trace, r, a, m) + One(Same(d, r, a, m) && d.ok)
  {
    assert (trace + [d])[..|trace|] == trace;
  }

  lemma {:induction false} AppendClusterAttempt(trace: seq<Decision>, d: Decision, a: Actor, m: nat, n: nat)
    ensures ClusterAttempts(trace + [d], a, m, n)
         == ClusterAttempts(trace, a, m, n) + One(d.replica < n && d.actor == a && d.minute == m)
  {
    if n > 0 {
      AppendClusterAttempt(trace, d, a, m, n - 1);
      AppendAttempt(trace, d, n - 1, a, m);
    }
  }

  lemma {:induction false} TotalIsBounded(s: State, a: Actor, m: nat, n: nat)
    requires forall key | key in s.table :: s.table[key] <= Attempts(s.trace, key.replica, key.actor, key.minute)
    ensures Total(s.table, a, m, n) <= ClusterAttempts(s.trace, a, m, n)
  {
    if n > 0 { TotalIsBounded(s, a, m, n - 1); }
  }

  lemma {:induction false} OneReplicaIsPartOfTheCluster(trace: seq<Decision>, r: nat, a: Actor, m: nat, n: nat)
    requires r < n
    ensures Attempts(trace, r, a, m) <= ClusterAttempts(trace, a, m, n)
  {
    if r < n - 1 { OneReplicaIsPartOfTheCluster(trace, r, a, m, n - 1); }
  }

  // ---- A denial is always deserved ----

  ghost predicate Deserved(s: State, a: Actor, m: nat) {
    ClusterAttempts(s.trace, a, m, |s.replicas|) > s.rpm
  }

  ghost predicate ReplicaInv(s: State, r: nat)
    requires r < |s.replicas|
  {
    var p := s.replicas[r];
    && (forall a | a in p.limiter.windows ::
          var w := p.limiter.windows[a]; w.minute <= p.now && w.count <= Attempts(s.trace, r, a, w.minute))
    && (forall a | a in p.limiter.flags :: p.limiter.flags[a] <= p.now && Deserved(s, a, p.limiter.flags[a]))
    && (!p.sync.Sleeping? ==>
          && p.sync.minute <= p.now
          && forall a | a in p.limiter.flags :: p.limiter.flags[a] <= p.sync.minute)
    && (p.sync.Reporting? ==> forall a | a in p.sync.todo :: p.sync.todo[a] <= Attempts(s.trace, r, a, p.sync.minute))
    && (p.sync.Flagging? ==> forall a | a in p.sync.over :: Deserved(s, a, p.sync.minute))
  }

  ghost predicate TableInv(s: State) {
    forall key | key in s.table :: s.table[key] <= Attempts(s.trace, key.replica, key.actor, key.minute)
  }

  ghost predicate Inv(s: State) {
    TableInv(s) && forall r | 0 <= r < |s.replicas| :: ReplicaInv(s, r)
  }

  /** Answering a request only adds to the counts everyone else relies on. */
  lemma OthersUnaffected(s: State, t: State, d: Decision, r: nat)
    requires r < |s.replicas| && ReplicaInv(s, r)
    requires t.trace == s.trace + [d] && t.rpm == s.rpm && |t.replicas| == |s.replicas|
    requires t.replicas[r] == s.replicas[r]
    ensures ReplicaInv(t, r)
  {
    forall a, m ensures Attempts(s.trace, r, a, m) <= Attempts(t.trace, r, a, m) { AppendAttempt(s.trace, d, r, a, m); }
    forall a, m | Deserved(s, a, m) ensures Deserved(t, a, m) { AppendClusterAttempt(s.trace, d, a, m, |s.replicas|); }
  }

  lemma AnswererKeepsInv(s: State, r: nat, a: Actor)
    requires r < |s.replicas| && ReplicaInv(s, r)
    ensures ReplicaInv(Apply(s, Request(r, a)), r)
  {
    var t := Apply(s, Request(r, a));
    var d := t.trace[|s.trace|];
    AppendAttempt(s.trace, d, r, a, s.replicas[r].now);
    var u := Put(t, r, s.replicas[r]);
    OthersUnaffected(s, u, d, r);
    assert ReplicaInv(u, r);
    forall x, m ensures Deserved(t, x, m) == Deserved(u, x, m) {}
    forall x | x in t.replicas[r].limiter.windows
      ensures var w := t.replicas[r].limiter.windows[x];
              w.minute <= t.replicas[r].now && w.count <= Attempts(t.trace, r, x, w.minute)
    {
      if x != a { assert x in u.replicas[r].limiter.windows; }
    }
  }

  lemma RequestKeepsInv(s: State, r: nat, a: Actor)
    requires Inv(s) && r < |s.replicas|
    ensures Inv(Apply(s, Request(r, a)))
  {
    var t := Apply(s, Request(r, a));
    var d := t.trace[|s.trace|];
    assert TableInv(t) by {
      forall key | key in t.table ensures t.table[key] <= Attempts(t.trace, key.replica, key.actor, key.minute) {
        AppendAttempt(s.trace, d, key.replica, key.actor, key.minute);
      }
    }
    forall i | 0 <= i < |t.replicas| ensures ReplicaInv(t, i) {
      assert ReplicaInv(s, i);
      if i == r { AnswererKeepsInv(s, r, a); } else { OthersUnaffected(s, t, d, i); }
    }
  }

  lemma TotalsKeepInv(s: State, r: nat)
    requires Inv(s) && Enabled(s, ReadTotals(r, true))
    ensures Inv(Apply(s, ReadTotals(r, true)))
  {
    var t := Apply(s, ReadTotals(r, true));
    assert ReplicaInv(s, r);
    var m := s.replicas[r].sync.minute;
    forall a | a in t.replicas[r].sync.over ensures Deserved(t, a, m) {
      TotalIsBounded(s, a, m, |s.replicas|);
    }
    assert ReplicaInv(t, r);
    forall i | 0 <= i < |t.replicas| ensures ReplicaInv(t, i) {
      if i != r { assert ReplicaInv(s, i); }
    }
  }

  /** The steps that leave the trace alone, other than reading the totals. */
  lemma QuietStepKeepsInv(s: State, step: Step)
    requires Inv(s) && Enabled(s, step) && !step.Request? && step != ReadTotals(step.r, true)
    ensures Inv(Apply(s, step))
  {
    var t := Apply(s, step);
    assert ReplicaInv(s, step.r);
    TableStaysBounded(s, step);
    forall i | 0 <= i < |t.replicas| ensures ReplicaInv(t, i) {
      assert ReplicaInv(s, i);
      if i == step.r { ActorKeepsInv(s, step); }
    }
  }

  lemma TableStaysBounded(s: State, step: Step)
    requires TableInv(s) && Enabled(s, step) && ReplicaInv(s, step.r) && !step.Request?
    ensures TableInv(Apply(s, step))
  {
  }

  /** The replica that takes the step. */
  lemma ActorKeepsInv(s: State, step: Step)
    requires Enabled(s, step) && ReplicaInv(s, step.r) && !step.Request? && step != ReadTotals(step.r, true)
    ensures ReplicaInv(Apply(s, step), step.r)
  {
    var t := Apply(s, step);
    forall a, m ensures Deserved(t, a, m) == Deserved(s, a, m) {}
  }

  lemma StepKeepsInv(s: State, step: Step)
    requires Inv(s) && Enabled(s, step)
    ensures Inv(Apply(s, step))
  {
    if step.Request? { RequestKeepsInv(s, step.r, step.actor); }
    else if step == ReadTotals(step.r, true) { TotalsKeepInv(s, step.r); }
    else { QuietStepKeepsInv(s, step); }
  }

  lemma DenialIsDeserved(s: State, r: nat, a: Actor)
    requires Inv(s) && r < |s.replicas|
    requires !Allows(s.replicas[r].limiter, s.rpm, a, s.replicas[r].now)
    ensures Deserved(Apply(s, Request(r, a)), a, s.replicas[r].now)
  {
    var p := s.replicas[r];
    var t := Apply(s, Request(r, a));
    var d := t.trace[|s.trace|];
    assert ReplicaInv(s, r);
    AppendClusterAttempt(s.trace, d, a, p.now, |s.replicas|);
    if !Flagged(p.limiter, a, p.now) {
      AppendAttempt(s.trace, d, r, a, p.now);
      OneReplicaIsPartOfTheCluster(t.trace, r, a, p.now, |s.replicas|);
    }
  }

  /** The `k`-th answer, if a denial, came when the cluster had seen more than `rpm` requests. */
  ghost predicate FairAt(s: State, k: nat)
    requires k < |s.trace|
  {
    var d := s.trace[k];
    d.ok || ClusterAttempts(s.trace[..k + 1], d.actor, d.minute, |s.replicas|) > s.rpm
  }

  lemma {:induction false} RunIsFair(s: State, steps: seq<Step>)
    requires Inv(s) && IsRun(s, steps)
    requires forall k | 0 <= k < |s.trace| :: FairAt(s, k)
    ensures forall k | 0 <= k < |After(s, steps).trace| :: FairAt(After(s, steps), k)
    decreases |steps|
  {
    if steps != [] {
      var t := Apply(s, steps[0]);
      StepKeepsInv(s, steps[0]);
      forall k | 0 <= k < |t.trace| ensures FairAt(t, k) {
        if k < |s.trace| {
          assert FairAt(s, k);
          assert t.trace[..k + 1] == s.trace[..k + 1];
        } else {
          assert t.trace[..k + 1] == t.trace;
          if !t.trace[k].ok { DenialIsDeserved(s, steps[0].r, steps[0].actor); }
        }
      }
      RunIsFair(t, steps[1..]);
    }
  }

  lemma InitInv(rpm: nat, n: nat)
    ensures Inv(Init(rpm, n))
  {
  }

  /** Any number of replicas, any interleaving of requests and sync statements, failed statements and
      skewed clocks included: an actor is denied in a minute only once the requests made for it in
      that minute across the cluster, this one included, exceed the budget. */
  lemma DenialsAreFair(rpm: nat, n: nat, steps: seq<Step>, k: nat)
    requires IsRun(Init(rpm, n), steps)
    requires k < |After(Init(rpm, n), steps).trace|
    ensures var trace := After(Init(rpm, n), steps).trace;
            !trace[k].ok ==> ClusterAttempts(trace[..k + 1], trace[k].actor, trace[k].minute, n) > rpm
  {
    InitInv(rpm, n);
    RunIsFair(Init(rpm, n), steps);
    ReplicasAreFixed(Init(rpm, n), steps);
    assert FairAt(After(Init(rpm, n), steps), k);
  }

  lemma {:induction false} ReplicasAreFixed(s: State, steps: seq<Step>)
    requires IsRun(s, steps)
    ensures |After(s, steps).replicas| == |s.replicas| && After(s, steps).rpm == s.rpm
    ensures s.trace <= After(s, steps).trace
    decreases |steps|
  {
    if steps != [] { ReplicasAreFixed(Apply(s, steps[0]), steps[1..]); }
  }

  // ---- Every row counts, and whoever is over the budget is flagged ----

  /** The total follows each replica's row: changing one changes it by the difference. */
  lemma {:induction false} EveryRowCounts(table: map<Key, nat>, a: Actor, m: nat, n: nat, r: nat, v: nat)
    requires r < n
    ensures Total(table[Key(a, m, r) := v], a, m, n) + Stored(table, Key(a, m, r)) == Total(table, a, m, n) + v
  {
    if r < n - 1 {
      EveryRowCounts(table, a, m, n - 1, r, v);
    } else {
      OtherRowsDoNot(table, a, m, n - 1, Key(a, m, r), v);
    }
  }

  /** Rows of other actors, minutes or replicas do not. */
  lemma {:induction false} OtherRowsDoNot(table: map<Key, nat>, a: Actor, m: nat, n: nat, key: Key, v: nat)
    requires key.actor != a || key.minute != m || key.replica >= n
    ensures Total(table[key := v], a, m, n) == Total(table, a, m, n)
  {
    if n > 0 { OtherRowsDoNot(table, a, m, n - 1, key, v); }
  }

  lemma {:induction false} ReportedTotal(table: map<Key, nat>, trace: seq<Decision>, a: Actor, m: nat, n: nat)
    requires forall r | 0 <= r < n :: Stored(table, Key(a, m, r)) == Attempts(trace, r, a, m)
    ensures Total(table, a, m, n) == ClusterAttempts(trace, a, m, n)
  {
    if n > 0 { ReportedTotal(table, trace, a, m, n - 1); }
  }

  lemma {:induction false} SomeRowIsThere(table: map<Key, nat>, a: Actor, m: nat, n: nat)
    requires Total(table, a, m, n) > 0
    ensures exists r | 0 <= r < n :: Key(a, m, r) in table
  {
    if Key(a, m, n - 1) in table {
      assert 0 <= n - 1 < n;
    } else {
      SomeRowIsThere(table, a, m, n - 1);
    }
  }

  /** Whose flag a sync sets: exactly the actors whose stored total for the minute, as the 32-bit number it
      is cast to, is over the budget. */
  lemma FlagsExactlyTheOver(s: State, q: nat, a: Actor)
    requires s.rpm > 0 && Enabled(s, ReadTotals(q, true))
    ensures var m := s.replicas[q].sync.minute;
            var t := Apply(Apply(s, ReadTotals(q, true)), SetFlags(q));
            Flagged(t.replicas[q].limiter, a, m)
            <==> || Flagged(s.replicas[q].limiter, a, m)
                 || Total(s.table, a, m, |s.replicas|) % U32 > s.rpm
  {
    var m, n := s.replicas[q].sync.minute, |s.replicas|;
    if Total(s.table, a, m, n) % U32 > s.rpm {
      SomeRowIsThere(s.table, a, m, n);
      var r :| 0 <= r < n && Key(a, m, r) in s.table;
      assert Key(a, m, r).actor == a;
    }
  }

  /** For any number of replicas: once each has its count of an actor's requests of the minute in the table
      and the requests made across the cluster are over the budget, the next sync pass that reads the
      totals flags the actor. */
  lemma OverBudgetIsFlagged(s: State, q: nat, a: Actor)
    requires s.rpm > 0 && Enabled(s, ReadTotals(q, true))
    requires var m := s.replicas[q].sync.minute;
             && (forall r | 0 <= r < |s.replicas| :: Stored(s.table, Key(a, m, r)) == Attempts(s.trace, r, a, m))
             && s.rpm < ClusterAttempts(s.trace, a, m, |s.replicas|) < U32
    ensures var m := s.replicas[q].sync.minute;
            Flagged(Apply(Apply(s, ReadTotals(q, true)), SetFlags(q)).replicas[q].limiter, a, m)
  {
    var m := s.replicas[q].sync.minute;
    ReportedTotal(s.table, s.trace, a, m, |s.replicas|);
    FlagsExactlyTheOver(s, q, a);
  }

  /** What a report stores: the count the process had when the pass began, over whatever it stored before. */
  lemma ReportStoresTheCount(s: State, r: nat, a: Actor)
    requires Enabled(s, TakeSnapshot(r))
    ensures var p := s.replicas[r];
            var t := Apply(s, TakeSnapshot(r));
            var counted := a in p.limiter.windows && p.limiter.windows[a].minute == p.now;
            && (Enabled(t, Report(r, a, true)) <==> counted)
            && (counted ==> Stored(Apply(t, Report(r, a, true)).table, Key(a, p.now, r)) == p.limiter.windows[a].count)
            && (counted ==> Apply(t, Report(r, a, false)).table == s.table)
  {
  }

  /** A pass that is not cut short by a restart gets to its prune before the replica sleeps again, whatever
      statements of it failed. */
  lemma {:induction false} PassesEndWithAPrune(s: State, steps: seq<Step>, r: nat) returns (k: nat)
    requires IsRun(s, steps) && r < |s.replicas| && r < |After(s, steps).replicas|
    requires !s.replicas[r].sync.Sleeping? && After(s, steps).replicas[r].sync.Sleeping?
    requires Restart(r) !in steps
    ensures k < |steps| && steps[k].Prune? && steps[k].r == r
    decreases |steps|
  {
    if steps[0].Prune? && steps[0].r == r {
      k := 0;
    } else {
      var rest := PassesEndWithAPrune(Apply(s, steps[0]), steps[1..], r);
      k := rest + 1;
    }
  }

  /** Pruning drops exactly the rows more than five minutes older than the pass. */
  lemma PruneKeepsFiveMinutes(s: State, r: nat, key: Key)
    requires Enabled(s, Prune(r, true)) && key in s.table
    ensures var t := Apply(s, Prune(r, true));
            && (key in t.table <==> key.minute + 5 >= s.replicas[r].sync.minute)
            && (key in t.table ==> t.table[key] == s.table[key])
  {
  }

  /** What replaces the flags: this minute's stay, the others go, and the actors over the budget join. */
  lemma FlagsAreReplaced(l: Limiter, minute: nat, over: set<Actor>, a: Actor)
    ensures var t := WithFlags(l, minute, over);
            && t.windows == l.windows
            && (a in t.flags <==> a in over || (a in l.flags && l.flags[a] == minute))
            && (a in t.flags ==> t.flags[a] == minute)
  {
  }

  /** With the budget at zero the limiter is off: nobody is ever denied. */
  lemma {:induction false} ZeroMeansOff(s: State, steps: seq<Step>, k: nat)
    requires s.rpm == 0 && IsRun(s, steps) && k < |After(s, steps).trace|
    requires forall i | 0 <= i < |s.trace| :: s.trace[i].ok
    ensures After(s, steps).trace[k].ok
    decreases |steps|
  {
    if steps != [] { ZeroMeansOff(Apply(s, steps[0]), steps[1..], k); }
  }

  // ---- A flag sticks for its minute ----

  /** Replica `r` has flagged `a` for minute `m`, or is past that minute. */
  predicate Shut(s: State, r: nat, a: Actor, m: nat) {
    r < |s.replicas| && (s.replicas[r].now > m || Flagged(s.replicas[r].limiter, a, m))
  }

  lemma StepKeepsShut(s: State, step: Step, r: nat, a: Actor, m: nat)
    requires Inv(s) && Enabled(s, step) && Shut(s, r, a, m) && step != Restart(r)
    ensures Shut(Apply(s, step), r, a, m)
  {
    assert ReplicaInv(s, r);
  }

  predicate StaysUp(steps: seq<Step>, r: nat) {
    Restart(r) !in steps
  }

  /** Once a replica has flagged an actor, it allows that actor nothing more in that minute,
      whatever later syncs read, as long as its process lives. */
  lemma {:induction false} FlagsStick(s: State, steps: seq<Step>, r: nat, a: Actor, m: nat, k: nat)
    requires Inv(s) && s.rpm > 0 && IsRun(s, steps) && Shut(s, r, a, m) && StaysUp(steps, r)
    requires |s.trace| <= k < |After(s, steps).trace| && Same(After(s, steps).trace[k], r, a, m)
    ensures !After(s, steps).trace[k].ok
    decreases |steps|
  {
    if steps != [] {
      var t := Apply(s, steps[0]);
      StepKeepsInv(s, steps[0]);
      StepKeepsShut(s, steps[0], r, a, m);
      ReplicasAreFixed(t, steps[1..]);
      if |t.trace| <= k {
        FlagsStick(t, steps[1..], r, a, m, k);
      } else {
        assert t.trace[k] == After(s, steps).trace[k];
      }
    }
  }

  lemma {:induction false} RunKeepsInv(s: State, steps: seq<Step>)
    requires Inv(s) && IsRun(s, steps)
    ensures Inv(After(s, steps))
    decreases |steps|
  {
    if steps != [] {
      StepKeepsInv(s, steps[0]);
      RunKeepsInv(Apply(s, steps[0]), steps[1..]);
    }
  }

  /** From every reachable state in which a replica has an actor flagged for the current minute, until
      the replica restarts. */
  lemma FlaggedStaysDenied(rpm: nat, n: nat, before: seq<Step>, steps: seq<Step>, r: nat, a: Actor, k: nat)
    requires rpm > 0 && IsRun(Init(rpm, n), before) && IsRun(After(Init(rpm, n), before), steps) && StaysUp(steps, r)
    requires var s := After(Init(rpm, n), before);
             && r < |s.replicas| && Flagged(s.replicas[r].limiter, a, s.replicas[r].now)
             && |s.trace| <= k < |After(s, steps).trace|
             && Same(After(s, steps).trace[k], r, a, s.replicas[r].now)
    ensures !After(After(Init(rpm, n), before), steps).trace[k].ok
  {
    var s := After(Init(rpm, n), before);
    InitInv(rpm, n);
    RunKeepsInv(Init(rpm, n), before);
    ReplicasAreFixed(Init(rpm, n), before);
    FlagsStick(s, steps, r, a, s.replicas[r].now, k);
  }

  // ---- How much the cluster lets through ----

  /** What replica `r` has answered since its process started, among everything answered since. */
  function Life(s: State, r: nat): (d: seq<Decision>)
    requires r < |s.replicas|
  {
    if s.replicas[r].since <= |s.trace| then s.trace[s.replicas[r].since..] else []
  }

  /** Restarts of `r` in its minute `m`. */
  function Restarts(s: State, steps: seq<Step>, r: nat, m: nat): (k: nat)
    requires IsRun(s, steps)
    decreases |steps|
  {
    if steps == [] then 0
    else RestartsNow(s, steps[0], r, m) + Restarts(Apply(s, steps[0]), steps[1..], r, m)
  }

  function RestartsNow(s: State, step: Step, r: nat, m: nat): (k: nat) {
    One(step == Restart(r) && r < |s.replicas| && s.replicas[r].now == m)
  }

  /** The budgets that those restarts give anew, added up. */
  function Renewed(s: State, steps: seq<Step>, r: nat, m: nat): (b: nat)
    requires IsRun(s, steps)
    decreases |steps|
  {
    if steps == [] then 0
    else RenewedNow(s, steps[0], r, m) + Renewed(Apply(s, steps[0]), steps[1..], r, m)
  }

  function RenewedNow(s: State, step: Step, r: nat, m: nat): (b: nat) {
    if RestartsNow(s, step, r, m) == 1 then s.rpm else 0
  }

  lemma {:induction false} RenewedPerRestart(s: State, steps: seq<Step>, r: nat, m: nat)
    requires IsRun(s, steps)
    ensures Renewed(s, steps, r, m) == Restarts(s, steps, r, m) * s.rpm
    decreases |steps|
  {
    if steps != [] {
      RenewedPerRestart(Apply(s, steps[0]), steps[1..], r, m);
      Distribute(RestartsNow(s, steps[0], r, m), Restarts(Apply(s, steps[0]), steps[1..], r, m), s.rpm);
    }
  }

  lemma Distribute(a: nat, b: nat, c: nat)
    ensures (a + b) * c == a * c + b * c
  {
  }

  lemma {:induction false} AllowedSplits(trace: seq<Decision>, n: nat, r: nat, a: Actor, m: nat)
    requires n <= |trace|
    ensures Allowed(trace, r, a, m) == Allowed(trace[..n], r, a, m) + Allowed(trace[n..], r, a, m)
  {
    if n == |trace| {
      assert trace[..n] == trace;
    } else {
      var k := |trace| - 1;
      AllowedSplits(trace[..k], n, r, a, m);
      assert trace[..k][..n] == trace[..n] && trace[..k][n..] == trace[n..][..k - n];
    }
  }

  /** The current life's answers, against the window the process keeps. */
  ghost predicate LifeInv(s: State, r: nat, a: Actor, m: nat)
    requires r < |s.replicas|
  {
    var w := s.replicas[r].limiter.windows;
    var n := Allowed(Life(s, r), r, a, m);
    && n <= s.rpm
    && (a in w && w[a].minute == m ==> n <= w[a].count)
    && (a !in w || w[a].minute != m ==> n == 0)
  }

  /** `b` is what earlier processes of minute `m` were entitled to. Before that minute nothing was allowed
      in it; during it the earlier processes spent at most `b` and the current one is counted by the
      window. */
  ghost predicate BudgetInv(s: State, r: nat, a: Actor, m: nat, b: nat)
    requires r < |s.replicas|
  {
    var p := s.replicas[r];
    && p.since <= |s.trace|
    && (p.now < m ==> Allowed(s.trace, r, a, m) == 0)
    && (p.now == m ==> Allowed(s.trace[..p.since], r, a, m) <= b && LifeInv(s, r, a, m))
    && (p.now > m ==> Allowed(s.trace, r, a, m) <= b + s.rpm)
  }

  lemma WithinBudget(s: State, r: nat, a: Actor, m: nat, b: nat)
    requires r < |s.replicas| && BudgetInv(s, r, a, m, b)
    ensures Allowed(s.trace, r, a, m) <= b + s.rpm
  {
    AllowedSplits(s.trace, s.replicas[r].since, r, a, m);
  }

  /** The counter does not wrap while there are fewer than 2^32 requests. */
  lemma BumpedIsNext(s: State, r: nat, a: Actor)
    requires r < |s.replicas| && ReplicaInv(s, r)
    requires Attempts(s.trace, r, a, s.replicas[r].now) + 1 < U32
    ensures var p := s.replicas[r];
            var w := p.limiter.windows;
            Bumped(p.limiter, a, p.now).count == (if a in w && w[a].minute == p.now then w[a].count else 0) + 1
  {
  }

  lemma RequestGrowsLife(s: State, q: nat, b: Actor, r: nat)
    requires q < |s.replicas| && r < |s.replicas| && s.replicas[r].since <= |s.trace|
    ensures var t := Apply(s, Request(q, b));
            && t.replicas[r].since == s.replicas[r].since
            && t.trace[..s.replicas[r].since] == s.trace[..s.replicas[r].since]
            && Life(t, r) == Life(s, r) + [t.trace[|s.trace|]]
  {
  }

  lemma RequestKeepsLife(s: State, q: nat, b: Actor, r: nat, a: Actor, m: nat)
    requires s.rpm > 0 && q < |s.replicas| && r < |s.replicas| && ReplicaInv(s, r)
    requires s.replicas[r].now == m && s.replicas[r].since <= |s.trace| && LifeInv(s, r, a, m)
    requires Attempts(Apply(s, Request(q, b)).trace, r, a, m) < U32
    ensures LifeInv(Apply(s, Request(q, b)), r, a, m)
  {
    var t := Apply(s, Request(q, b));
    var d := t.trace[|s.trace|];
    RequestGrowsLife(s, q, b, r);
    AppendAttempt(s.trace, d, r, a, m);
    AppendAttempt(Life(s, r), d, r, a, m);
    if Same(d, r, a, m) { BumpedIsNext(s, r, a); }
  }

  lemma RequestKeepsBudget(s: State, q: nat, x: Actor, r: nat, a: Actor, m: nat, b: nat)
    requires s.rpm > 0 && q < |s.replicas| && r < |s.replicas| && ReplicaInv(s, r) && BudgetInv(s, r, a, m, b)
    requires Attempts(Apply(s, Request(q, x)).trace, r, a, m) < U32
    ensures BudgetInv(Apply(s, Request(q, x)), r, a, m, b)
  {
    var t := Apply(s, Request(q, x));
    RequestGrowsLife(s, q, x, r);
    AppendAttempt(s.trace, t.trace[|s.trace|], r, a, m);
    if s.replicas[r].now == m { RequestKeepsLife(s, q, x, r, a, m); }
  }

  lemma RestartKeepsBudget(s: State, r: nat, a: Actor, m: nat, b: nat)
    requires r < |s.replicas| && BudgetInv(s, r, a, m, b)
    ensures BudgetInv(Apply(s, Restart(r)), r, a, m, b + RenewedNow(s, Restart(r), r, m))
  {
    WithinBudget(s, r, a, m, b);
    assert s.trace[..|s.trace|] == s.trace && s.trace[|s.trace|..] == [];
  }

  lemma ClockKeepsBudget(s: State, r: nat, to: nat, a: Actor, m: nat, b: nat)
    requires r < |s.replicas| && BudgetInv(s, r, a, m, b) && Enabled(s, Clock(r, to))
    requires ReplicaInv(s, r)
    ensures BudgetInv(Apply(s, Clock(r, to)), r, a, m, b)
  {
    WithinBudget(s, r, a, m, b);
    AllowedSplits(s.trace, s.replicas[r].since, r, a, m);
  }

  lemma StepKeepsBudget(s: State, step: Step, r: nat, a: Actor, m: nat, b: nat)
    requires Inv(s) && s.rpm > 0 && Enabled(s, step) && r < |s.replicas| && BudgetInv(s, r, a, m, b)
    requires Attempts(Apply(s, step).trace, r, a, m) < U32
    ensures BudgetInv(Apply(s, step), r, a, m, b + RenewedNow(s, step, r, m))
  {
    assert ReplicaInv(s, r);
    if step.Request? {
      RequestKeepsBudget(s, step.r, step.actor, r, a, m, b);
    } else if step == Restart(r) {
      RestartKeepsBudget(s, r, a, m, b);
    } else if step.Clock? && step.r == r {
      ClockKeepsBudget(s, r, step.to, a, m, b);
    } else {
      OthersKeepBudget(s, step, r, a, m, b);
    }
  }

  lemma OthersKeepBudget(s: State, step: Step, r: nat, a: Actor, m: nat, b: nat)
    requires Enabled(s, step) && r < |s.replicas| && BudgetInv(s, r, a, m, b)
    requires !step.Request? && (step.r == r ==> !step.Restart? && !step.Clock?)
    ensures BudgetInv(Apply(s, step), r, a, m, b)
  {
    var t := Apply(s, step);
    var p, q := s.replicas[r], t.replicas[r];
    assert t.trace == s.trace && q.limiter.windows == p.limiter.windows && q.now == p.now && q.since == p.since;
  }

  lemma {:induction false} AttemptsOnlyGrow(
    shorter: seq<Decision>, longer: seq<Decision>, r: nat, a: Actor, m: nat)
    requires shorter <= longer
    ensures Attempts(shorter, r, a, m) <= Attempts(longer, r, a, m)
    decreases |longer|
  {
    if |shorter| < |longer| {
      AttemptsOnlyGrow(shorter, longer[..|longer| - 1], r, a, m);
    } else {
      assert shorter == longer;
    }
  }

  lemma FewerAfterOneStep(s: State, steps: seq<Step>, r: nat, a: Actor, m: nat)
    requires steps != [] && IsRun(s, steps)
    ensures Attempts(Apply(s, steps[0]).trace, r, a, m) <= Attempts(After(s, steps).trace, r, a, m)
    ensures |Apply(s, steps[0]).replicas| == |s.replicas| && Apply(s, steps[0]).rpm == s.rpm
  {
    ReplicasAreFixed(Apply(s, steps[0]), steps[1..]);
    AttemptsOnlyGrow(Apply(s, steps[0]).trace, After(s, steps).trace, r, a, m);
  }

  lemma FirstStepKeepsBudget(s: State, steps: seq<Step>, r: nat, a: Actor, m: nat, b: nat)
    requires steps != [] && IsRun(s, steps)
    requires Inv(s) && s.rpm > 0 && r < |s.replicas| && BudgetInv(s, r, a, m, b)
    requires Attempts(After(s, steps).trace, r, a, m) < U32
    ensures var t := Apply(s, steps[0]);
            && Inv(t) && t.rpm == s.rpm && |t.replicas| == |s.replicas|
            && BudgetInv(t, r, a, m, b + RenewedNow(s, steps[0], r, m))
  {
    StepKeepsInv(s, steps[0]);
    FewerAfterOneStep(s, steps, r, a, m);
    StepKeepsBudget(s, steps[0], r, a, m, b);
  }

  lemma {:induction false} RunKeepsBudget(s: State, steps: seq<Step>, r: nat, a: Actor, m: nat, b: nat)
    requires Inv(s) && s.rpm > 0 && IsRun(s, steps) && r < |s.replicas| && BudgetInv(s, r, a, m, b)
    requires Attempts(After(s, steps).trace, r, a, m) < U32
    ensures r < |After(s, steps).replicas|
    ensures BudgetInv(After(s, steps), r, a, m, b + Renewed(s, steps, r, m))
    decreases |steps|
  {
    if steps != [] {
      FirstStepKeepsBudget(s, steps, r, a, m, b);
      RunKeepsBudget(Apply(s, steps[0]), steps[1..], r, a, m, b + RenewedNow(s, steps[0], r, m));
    }
  }

  /** Per minute each replica lets an actor through at most `rpm` times, and `rpm` times more for each
      restart within the minute, unless its 32-bit counter has gone all the way round. */
  lemma ReplicaBudget(rpm: nat, n: nat, steps: seq<Step>, r: nat, a: Actor, m: nat)
    requires rpm > 0 && IsRun(Init(rpm, n), steps) && r < n
    requires Attempts(After(Init(rpm, n), steps).trace, r, a, m) < U32
    ensures Allowed(After(Init(rpm, n), steps).trace, r, a, m) <= (Restarts(Init(rpm, n), steps, r, m) + 1) * rpm
  {
    InitInv(rpm, n);
    RunKeepsBudget(Init(rpm, n), steps, r, a, m, 0);
    ReplicasAreFixed(Init(rpm, n), steps);
    WithinBudget(After(Init(rpm, n), steps), r, a, m, Renewed(Init(rpm, n), steps, r, m));
    RenewedPerRestart(Init(rpm, n), steps, r, m);
    Distribute(Restarts(Init(rpm, n), steps, r, m), 1, rpm);
  }

  /** How many processes the first `n` replicas had in minute `m`. */
  function Lives(s: State, steps: seq<Step>, m: nat, n: nat): (k: nat)
    requires IsRun(s, steps)
  {
    if n == 0 then 0 else Lives(s, steps, m, n - 1) + Restarts(s, steps, n - 1, m) + 1
  }

  lemma {:induction false} SumOfBudgets(s: State, steps: seq<Step>, a: Actor, m: nat, n: nat)
    requires IsRun(s, steps)
    requires forall r | 0 <= r < n ::
               Allowed(After(s, steps).trace, r, a, m) <= (Restarts(s, steps, r, m) + 1) * s.rpm
    ensures ClusterAllowed(After(s, steps).trace, a, m, n) <= Lives(s, steps, m, n) * s.rpm
  {
    if n > 0 {
      SumOfBudgets(s, steps, a, m, n - 1);
      Distribute(Lives(s, steps, m, n - 1), Restarts(s, steps, n - 1, m) + 1, s.rpm);
    }
  }

  /** So the cluster lets through at most `rpm` for each process it had in the minute. */
  lemma ClusterBudget(rpm: nat, n: nat, steps: seq<Step>, a: Actor, m: nat)
    requires rpm > 0 && IsRun(Init(rpm, n), steps)
    requires forall r | 0 <= r < n :: Attempts(After(Init(rpm, n), steps).trace, r, a, m) < U32
    ensures ClusterAllowed(After(Init(rpm, n), steps).trace, a, m, n) <= Lives(Init(rpm, n), steps, m, n) * rpm
  {
    var s := Init(rpm, n);
    forall r | 0 <= r < n
      ensures Allowed(After(s, steps).trace, r, a, m) <= (Restarts(s, steps, r, m) + 1) * rpm
    {
      ReplicaBudget(rpm, n, steps, r, a, m);
    }
    SumOfBudgets(s, steps, a, m, n);
  }

  /** The stored total never exceeds the requests made, in any run: a report overwrites the replica's
      earlier one. */
  lemma StoredTotalsAreBounded(rpm: nat, n: nat, steps: seq<Step>, a: Actor, m: nat)
    requires IsRun(Init(rpm, n), steps)
    ensures var s := After(Init(rpm, n), steps); Total(s.table, a, m, n) <= ClusterAttempts(s.trace, a, m, n)
  {
    InitInv(rpm, n);
    RunKeepsInv(Init(rpm, n), steps);
    TotalIsBounded(After(Init(rpm, n), steps), a, m, n);
  }
}
