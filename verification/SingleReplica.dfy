/** A single replica with the sync on, against the same limiter with the sync off. */
module SingleReplica {
  import opened RateLimiter

  /** The limiter that answers the same requests with the sync switched off. */
  function Unsynced(rpm: nat, trace: seq<Decision>): (l: Limiter) {
    if trace == [] then EMPTY
    else
      var d := trace[|trace| - 1];
      AfterRequest(Unsynced(rpm, trace[..|trace| - 1]), rpm, d.actor, d.minute)
  }

  /** The window of `a` counts its requests in `m` modulo 2^32; `m` is not before any minute in the trace. */
  ghost predicate Exact(l: Limiter, trace: seq<Decision>, a: Actor, m: nat) {
    && (a in l.windows && l.windows[a].minute == m ==> l.windows[a].count == Attempts(trace, 0, a, m) % U32)
    && (a !in l.windows || l.windows[a].minute != m ==> Attempts(trace, 0, a, m) == 0)
  }

  /** Since its process started the synced limiter counts exactly, until it flags the actor. */
  ghost predicate SoloInv(s: State) {
    && |s.replicas| == 1 && s.replicas[0].since <= |s.trace|
    && InOrder(s.trace)
    && (forall k | 0 <= k < |s.trace| :: s.trace[k].minute <= s.replicas[0].now)
    && (s.rpm > 0 ==> forall a, m | m >= s.replicas[0].now && !Flagged(s.replicas[0].limiter, a, m) ::
          Exact(s.replicas[0].limiter, Life(s, 0), a, m))
  }

  lemma ExactAfterRequest(l: Limiter, rpm: nat, trace: seq<Decision>, d: Decision, a: Actor, m: nat)
    requires rpm > 0 && d.replica == 0 && !Flagged(l, d.actor, d.minute) && m >= d.minute
    requires Exact(l, trace, a, m) && Exact(l, trace, d.actor, d.minute)
    requires forall x | x in l.windows :: l.windows[x].minute <= d.minute
    ensures Exact(AfterRequest(l, rpm, d.actor, d.minute), trace + [d], a, m)
    ensures Allows(l, rpm, d.actor, d.minute) <==> Attempts(trace + [d], 0, d.actor, d.minute) % U32 <= rpm
  {
    AppendAttempt(trace, d, 0, a, m);
    AppendAttempt(trace, d, 0, d.actor, d.minute);
    WrapsAlong(Attempts(trace, 0, d.actor, d.minute));
  }

  lemma WrapsAlong(n: nat)
    ensures (n % U32 + 1) % U32 == (n + 1) % U32
  {
  }

  lemma {:induction false} UnsyncedWindowsAreOld(rpm: nat, trace: seq<Decision>, now: nat)
    requires forall k | 0 <= k < |trace| :: trace[k].minute <= now
    ensures forall x | x in Unsynced(rpm, trace).windows :: Unsynced(rpm, trace).windows[x].minute <= now
  {
    if trace != [] { UnsyncedWindowsAreOld(rpm, trace[..|trace| - 1], now); }
  }

  /** One process's requests, in the order of its clock. */
  predicate InOrder(trace: seq<Decision>) {
    && (forall k | 0 <= k < |trace| :: trace[k].replica == 0)
    && (forall k, l | 0 <= k < l < |trace| :: trace[k].minute <= trace[l].minute)
  }

  lemma {:induction false} UnsyncedIsExact(rpm: nat, trace: seq<Decision>, a: Actor, m: nat)
    requires rpm > 0 && InOrder(trace)
    requires forall k | 0 <= k < |trace| :: trace[k].minute <= m
    ensures Unsynced(rpm, trace).flags == map[]
    ensures Exact(Unsynced(rpm, trace), trace, a, m)
  {
    if trace != [] {
      var n := |trace| - 1;
      var d := trace[n];
      assert trace == trace[..n] + [d];
      UnsyncedIsExact(rpm, trace[..n], a, m);
      UnsyncedIsExact(rpm, trace[..n], d.actor, d.minute);
      UnsyncedWindowsAreOld(rpm, trace[..n], d.minute);
      ExactAfterRequest(Unsynced(rpm, trace[..n]), rpm, trace[..n], d, a, m);
    }
  }

  /** What the plain limiter answers, exactly: the `j`-th request of an actor's minute passes if and
      only if `j` modulo 2^32 is within the budget. Up to 2^32 requests that is "at most `rpm`"; past
      them the counter starts over and requests pass again. */
  lemma UnsyncedAnswers(rpm: nat, trace: seq<Decision>)
    requires rpm > 0 && trace != [] && InOrder(trace)
    ensures var n := |trace| - 1;
            var d := trace[n];
            Allows(Unsynced(rpm, trace[..n]), rpm, d.actor, d.minute)
            <==> Attempts(trace, 0, d.actor, d.minute) % U32 <= rpm
  {
    var n := |trace| - 1;
    var d := trace[n];
    assert trace == trace[..n] + [d];
    UnsyncedIsExact(rpm, trace[..n], d.actor, d.minute);
    UnsyncedWindowsAreOld(rpm, trace[..n], d.minute);
    ExactAfterRequest(Unsynced(rpm, trace[..n]), rpm, trace[..n], d, d.actor, d.minute);
  }

  /** The answer the sync-free limiter gives to the same request. */
  predicate SameAnswer(rpm: nat, trace: seq<Decision>, k: nat)
    requires k < |trace|
  {
    trace[k].ok == Allows(Unsynced(rpm, trace[..k]), rpm, trace[k].actor, trace[k].minute)
  }

  /** The one way the two can differ: the actor is flagged, although by the count of this process alone it
      would be let through. */
  predicate Overruled(s: State, a: Actor)
    requires |s.replicas| == 1
  {
    var p := s.replicas[0];
    s.rpm > 0 && Flagged(p.limiter, a, p.now) && (Attempts(Life(s, 0), 0, a, p.now) + 1) % U32 <= s.rpm
  }

  lemma StillInOrder(s: State, a: Actor)
    requires SoloInv(s)
    ensures var t := Apply(s, Request(0, a));
            InOrder(t.trace) && forall k | 0 <= k < |t.trace| :: t.trace[k].minute <= t.replicas[0].now
  {
  }

  ghost predicate AloneInv(s: State) {
    |s.replicas| == 1 && ReplicaInv(s, 0)
  }

  /** What the synced limiter answers, while the actor is not flagged. */
  lemma SoloAnswer(s: State, a: Actor)
    requires AloneInv(s) && SoloInv(s) && s.rpm > 0 && !Flagged(s.replicas[0].limiter, a, s.replicas[0].now)
    ensures var p := s.replicas[0];
            Allows(p.limiter, s.rpm, a, p.now) <==> (Attempts(Life(s, 0), 0, a, p.now) + 1) % U32 <= s.rpm
  {
    var p := s.replicas[0];
    var d := Decision(0, a, p.now, true);
    assert Exact(p.limiter, Life(s, 0), a, p.now);
    ExactAfterRequest(p.limiter, s.rpm, Life(s, 0), d, a, p.now);
    AppendAttempt(Life(s, 0), d, 0, a, p.now);
  }

  lemma LifeInOrder(s: State, a: Actor)
    requires SoloInv(s)
    ensures InOrder(Life(s, 0) + [Answer(s, a)])
  {
    var since := s.replicas[0].since;
    var life := Life(s, 0);
    assert forall k | 0 <= k < |life| :: life[k] == s.trace[since + k];
  }

  lemma SoloAgreement(s: State, a: Actor)
    requires AloneInv(s) && SoloInv(s) && s.rpm > 0
    ensures SameAnswer(s.rpm, Life(s, 0) + [Answer(s, a)], |Life(s, 0)|) <==> !Overruled(s, a)
  {
    var p := s.replicas[0];
    var life := Life(s, 0);
    var longer := life + [Answer(s, a)];
    assert longer[..|life|] == life;
    LifeInOrder(s, a);
    UnsyncedAnswers(s.rpm, longer);
    AppendAttempt(life, Answer(s, a), 0, a, p.now);
    if !Flagged(p.limiter, a, p.now) { SoloAnswer(s, a); }
  }

  /** The answer to a request of `a` now. */
  function Answer(s: State, a: Actor): (d: Decision)
    requires |s.replicas| == 1
  {
    var p := s.replicas[0];
    Decision(0, a, p.now, Allows(p.limiter, s.rpm, a, p.now))
  }

  lemma SoloExact(s: State, a: Actor, b: Actor, m: nat)
    requires AloneInv(s) && SoloInv(s) && s.rpm > 0
    requires m >= s.replicas[0].now && !Flagged(s.replicas[0].limiter, b, m)
    ensures var t := Apply(s, Request(0, a)); Exact(t.replicas[0].limiter, Life(t, 0), b, m)
  {
    var t := Apply(s, Request(0, a));
    var p := s.replicas[0];
    var d := t.trace[|s.trace|];
    RequestGrowsLife(s, 0, a, 0);
    assert Exact(p.limiter, Life(s, 0), b, m);
    if Flagged(p.limiter, a, p.now) {
      AppendAttempt(Life(s, 0), d, 0, b, m);
    } else {
      assert Exact(p.limiter, Life(s, 0), a, p.now);
      ExactAfterRequest(p.limiter, s.rpm, Life(s, 0), d, b, m);
    }
  }

  lemma SoloRequest(s: State, a: Actor)
    requires AloneInv(s) && SoloInv(s) && s.rpm > 0
    ensures SoloInv(Apply(s, Request(0, a)))
  {
    var t := Apply(s, Request(0, a));
    StillInOrder(s, a);
    forall b, m | m >= t.replicas[0].now && !Flagged(t.replicas[0].limiter, b, m)
      ensures Exact(t.replicas[0].limiter, Life(t, 0), b, m)
    {
      SoloExact(s, a, b, m);
    }
  }

  /** No other step answers a request; a restart begins a new life, and no other drops a flag within the
      minute. */
  lemma SoloQuiet(s: State, step: Step)
    requires Inv(s) && SoloInv(s) && Enabled(s, step) && !step.Request?
    ensures SoloInv(Apply(s, step))
  {
    var t := Apply(s, step);
    assert ReplicaInv(s, 0);
    if s.rpm > 0 && !step.Restart? {
      forall b, m | m >= t.replicas[0].now && !Flagged(t.replicas[0].limiter, b, m)
        ensures Exact(t.replicas[0].limiter, Life(t, 0), b, m)
      {
        assert !Flagged(s.replicas[0].limiter, b, m);
        assert Exact(s.replicas[0].limiter, Life(s, 0), b, m);
      }
    }
  }

  lemma SoloStep(s: State, step: Step)
    requires Inv(s) && SoloInv(s) && Enabled(s, step)
    ensures SoloInv(Apply(s, step))
  {
    if !step.Request? { SoloQuiet(s, step); }
    else if s.rpm > 0 { assert ReplicaInv(s, 0); SoloRequest(s, step.actor); }
    else { StillInOrder(s, step.actor); }
  }

  lemma {:induction false} SoloRun(s: State, steps: seq<Step>)
    requires Inv(s) && SoloInv(s) && IsRun(s, steps)
    ensures Inv(After(s, steps)) && SoloInv(After(s, steps))
    decreases |steps|
  {
    if steps != [] {
      StepKeepsInv(s, steps[0]);
      SoloStep(s, steps[0]);
      SoloRun(Apply(s, steps[0]), steps[1..]);
    }
  }

  /** On one replica, wherever the sync's statements and its restarts fall between the requests and
      although flagged denials are not counted: the next answer is the one that a limiter started with
      the process gives with the sync switched off, if and only if the flag does not overrule the
      process's own count. */
  lemma SingleReplicaAnswers(rpm: nat, steps: seq<Step>, a: Actor)
    requires IsRun(Init(rpm, 1), steps)
    ensures |After(Init(rpm, 1), steps).replicas| == 1
    ensures var s := After(Init(rpm, 1), steps);
            && Apply(s, Request(0, a)).trace == s.trace + [Answer(s, a)]
            && (SameAnswer(rpm, Life(s, 0) + [Answer(s, a)], |Life(s, 0)|) <==> !Overruled(s, a))
  {
    var s := After(Init(rpm, 1), steps);
    InitInv(rpm, 1);
    ReplicasAreFixed(Init(rpm, 1), steps);
    SoloRun(Init(rpm, 1), steps);
    if rpm > 0 { assert ReplicaInv(s, 0); SoloAgreement(s, a); }
  }

  lemma NotOverruled(s: State, a: Actor)
    requires Inv(s) && |s.replicas| == 1
    requires var now := s.replicas[0].now;
             Attempts(Life(s, 0), 0, a, now) == Attempts(s.trace, 0, a, now) < U32 - 1
    ensures !Overruled(s, a)
  {
    var now := s.replicas[0].now;
    assert ReplicaInv(s, 0);
    assert ClusterAttempts(s.trace, a, now, 0) == 0;
    assert ClusterAttempts(s.trace, a, now, 1) == Attempts(s.trace, 0, a, now);
  }

  /** In particular the sync changes no answer in a minute with fewer than 2^32 requests, none of them
      before a restart. */
  lemma SingleReplicaUnchanged(rpm: nat, steps: seq<Step>, a: Actor)
    requires IsRun(Init(rpm, 1), steps)
    requires var s := After(Init(rpm, 1), steps);
             && |s.replicas| == 1
             && var now := s.replicas[0].now;
             Attempts(Life(s, 0), 0, a, now) == Attempts(s.trace, 0, a, now) < U32 - 1
    ensures var s := After(Init(rpm, 1), steps); SameAnswer(rpm, Life(s, 0) + [Answer(s, a)], |Life(s, 0)|)
  {
    InitInv(rpm, 1);
    SoloRun(Init(rpm, 1), steps);
    SingleReplicaAnswers(rpm, steps, a);
    NotOverruled(After(Init(rpm, 1), steps), a);
  }

  // ---- Both ways to the exception ----

  lemma Prepend(s: State, step: Step, rest: seq<Step>)
    requires Enabled(s, step) && IsRun(Apply(s, step), rest)
    ensures IsRun(s, [step] + rest) && After(s, [step] + rest) == After(Apply(s, step), rest)
  {
    assert ([step] + rest)[1..] == rest;
  }

  /** One replica, in its first minute, that has answered `k` requests of `a` and nothing else. */
  ghost predicate Counted(s: State, a: Actor, k: nat, sync: Sync) {
    && |s.replicas| == 1
    && s.replicas[0] == Replica(0, Limiter(if k == 0 then map[] else map[a := Window(0, k)], map[]), sync, 0)
    && Attempts(s.trace, 0, a, 0) == k
  }

  /** One replica that has flagged `a` in its first minute; its process has answered `k` requests of `a`. */
  ghost predicate Shutting(s: State, a: Actor, k: nat) {
    && |s.replicas| == 1 && s.replicas[0].now == 0 && s.replicas[0].since <= |s.trace|
    && Flagged(s.replicas[0].limiter, a, 0)
    && Attempts(Life(s, 0), 0, a, 0) == k
  }

  lemma CountsOne(s: State, a: Actor, k: nat)
    requires Counted(s, a, k, Sleeping) && s.rpm > 0 && k + 1 < U32
    ensures Counted(Apply(s, Request(0, a)), a, k + 1, Sleeping)
  {
    var t := Apply(s, Request(0, a));
    AppendAttempt(s.trace, t.trace[|s.trace|], 0, a, 0);
    assert t.replicas[0].limiter.windows == map[a := Window(0, k + 1)];
  }

  lemma TotalOfOne(table: map<Key, nat>, a: Actor, k: nat)
    requires Key(a, 0, 0) in table && table[Key(a, 0, 0)] == k
    ensures Total(table, a, 0, 1) == k
  {
    assert Total(table, a, 0, 0) == 0;
  }

  /** The replica is about to read totals that put `a` over the budget. */
  ghost predicate Doomed(s: State, a: Actor) {
    && |s.replicas| == 1 && s.replicas[0].now == 0 && s.replicas[0].sync == Reporting(0, map[])
    && Key(a, 0, 0) in s.table && s.rpm < s.table[Key(a, 0, 0)] < U32
  }

  lemma ReadAndFlag(s: State, a: Actor) returns (steps: seq<Step>)
    requires Doomed(s, a)
    ensures IsRun(s, steps)
    ensures var t := After(s, steps);
            && t.rpm == s.rpm && t.trace == s.trace && |t.replicas| == 1
            && t.replicas[0].now == 0 && t.replicas[0].since == s.replicas[0].since
            && Flagged(t.replicas[0].limiter, a, 0)
  {
    TotalOfOne(s.table, a, s.table[Key(a, 0, 0)]);
    var t := Apply(s, ReadTotals(0, true));
    assert a in t.replicas[0].sync.over;
    Prepend(t, SetFlags(0), []);
    Prepend(s, ReadTotals(0, true), [SetFlags(0)] + []);
    steps := [ReadTotals(0, true)] + ([SetFlags(0)] + []);
  }

  /** The first statements of a sync pass, once the count is over the budget. */
  lemma ReportCount(s: State, a: Actor, k: nat) returns (steps: seq<Step>)
    requires Counted(s, a, k, Sleeping) && 0 < s.rpm < k < U32
    ensures IsRun(s, steps)
    ensures var t := After(s, steps);
            Doomed(t, a) && t.rpm == s.rpm && t.trace == s.trace && t.replicas[0].since == 0
  {
    var s1 := Apply(s, TakeSnapshot(0));
    assert s1.replicas[0].sync == Reporting(0, map[a := k]);
    var s2 := Apply(s1, Report(0, a, true));
    assert s2.replicas[0].sync == Reporting(0, map[]);
    Prepend(s1, Report(0, a, true), []);
    Prepend(s, TakeSnapshot(0), [Report(0, a, true)] + []);
    steps := [TakeSnapshot(0)] + ([Report(0, a, true)] + []);
  }

  /** Denied requests are not counted by the limiter, but they are made. */
  lemma {:induction false} DeniedRequests(s: State, a: Actor, k: nat, n: nat) returns (steps: seq<Step>)
    requires Shutting(s, a, k)
    ensures IsRun(s, steps) && Shutting(After(s, steps), a, k + n) && After(s, steps).rpm == s.rpm
    decreases n
  {
    steps := [];
    if n > 0 {
      var t := Apply(s, Request(0, a));
      RequestGrowsLife(s, 0, a, 0);
      AppendAttempt(Life(s, 0), t.trace[|s.trace|], 0, a, 0);
      var rest := DeniedRequests(t, a, k + 1, n - 1);
      Prepend(s, Request(0, a), rest);
      steps := [Request(0, a)] + rest;
    }
  }

  /** From fewer requests to a count just over the budget, reported but not yet read back. */
  lemma {:induction false} CountUpAndReport(s: State, a: Actor, k: nat) returns (steps: seq<Step>)
    requires Counted(s, a, k, Sleeping) && k <= s.rpm + 1 < U32 && s.rpm > 0
    ensures IsRun(s, steps)
    ensures var t := After(s, steps);
            && Doomed(t, a) && t.rpm == s.rpm && t.replicas[0].since == 0
            && Attempts(t.trace, 0, a, 0) == s.rpm + 1
    decreases s.rpm + 1 - k
  {
    if k == s.rpm + 1 {
      steps := ReportCount(s, a, k);
    } else {
      CountsOne(s, a, k);
      var rest := CountUpAndReport(Apply(s, Request(0, a)), a, k + 1);
      Prepend(s, Request(0, a), rest);
      steps := [Request(0, a)] + rest;
    }
  }

  lemma {:induction false} Concatenate(s: State, a: seq<Step>, b: seq<Step>)
    requires IsRun(s, a) && IsRun(After(s, a), b)
    ensures IsRun(s, a + b) && After(s, a + b) == After(After(s, a), b)
    decreases |a|
  {
    if a == [] {
      assert a + b == b;
    } else {
      Concatenate(Apply(s, a[0]), a[1..], b);
      assert a + b == [a[0]] + (a[1..] + b);
      Prepend(s, a[0], a[1..] + b);
    }
  }

  /** The counter comes round: for every budget that a 32-bit count can exceed, a single replica counts
      past it, one sync pass flags the actor, and the actor goes on asking within the minute. */
  lemma WrappedIsOverruled(rpm: nat, a: Actor) returns (steps: seq<Step>)
    requires 0 < rpm < U32 - 1
    ensures IsRun(Init(rpm, 1), steps)
    ensures |After(Init(rpm, 1), steps).replicas| == 1 && Overruled(After(Init(rpm, 1), steps), a)
  {
    var s := Init(rpm, 1);
    var up := CountUpAndReport(s, a, 0);
    var t := After(s, up);
    var flag := ReadAndFlag(t, a);
    Concatenate(s, up, flag);
    var u := After(t, flag);
    assert u.trace[0..] == t.trace;
    var more := DeniedRequests(u, a, rpm + 1, U32 - rpm - 2);
    Concatenate(s, up + flag, more);
    steps := (up + flag) + more;
  }

  /** Or the process restarts: it forgets its count, its rows in the table do not, and the next sync pass
      flags an actor that the new process has not seen. No counter has wrapped. */
  lemma RestartedIsOverruled(rpm: nat, a: Actor) returns (steps: seq<Step>)
    requires 0 < rpm < U32 - 1
    ensures IsRun(Init(rpm, 1), steps)
    ensures var s := After(Init(rpm, 1), steps);
            && |s.replicas| == 1 && Overruled(s, a)
            && Attempts(s.trace, 0, a, 0) == rpm + 1 && Life(s, 0) == []
  {
    var s := Init(rpm, 1);
    var up := CountUpAndReport(s, a, 0);
    var t := After(s, up);
    var more := RestartAndFlag(t, a);
    Concatenate(s, up, more);
    steps := up + more;
  }

  lemma RestartAndFlag(s: State, a: Actor) returns (steps: seq<Step>)
    requires Doomed(s, a) && 0 < s.rpm
    ensures IsRun(s, steps)
    ensures var t := After(s, steps); t.rpm == s.rpm && t.trace == s.trace && Shutting(t, a, 0) && Life(t, 0) == []
  {
    var t := Apply(s, Restart(0));
    var u := Apply(t, TakeSnapshot(0));
    assert u.replicas[0].sync == Reporting(0, map[]);
    var flag := ReadAndFlag(u, a);
    Prepend(t, TakeSnapshot(0), flag);
    Prepend(s, Restart(0), [TakeSnapshot(0)] + flag);
    steps := [Restart(0)] + ([TakeSnapshot(0)] + flag);
  }

  // ---- When the plain limiter keeps its budget ----

  /** How many of the first `n` requests of a minute pass. */
  function Passing(rpm: nat, n: nat): (k: nat) {
    if n == 0 then 0 else Passing(rpm, n - 1) + One(n % U32 <= rpm)
  }

  lemma {:induction false} PassingBelow(rpm: nat, n: nat)
    requires n < U32
    ensures Passing(rpm, n) == if n < rpm then n else rpm
  {
    if n > 0 { PassingBelow(rpm, n - 1); }
  }

  lemma {:induction false} PassingGrows(rpm: nat, n: nat, m: nat)
    requires n <= m
    ensures Passing(rpm, n) <= Passing(rpm, m)
  {
    if n < m { PassingGrows(rpm, n, m - 1); }
  }

  /** Every answer in the trace is the one the limiter without sync gives. */
  ghost predicate Plain(rpm: nat, trace: seq<Decision>) {
    InOrder(trace) && forall k | 0 <= k < |trace| :: SameAnswer(rpm, trace, k)
  }

  lemma {:induction false} PlainAllows(rpm: nat, trace: seq<Decision>, a: Actor, m: nat)
    requires rpm > 0 && Plain(rpm, trace)
    ensures Allowed(trace, 0, a, m) == Passing(rpm, Attempts(trace, 0, a, m))
  {
    if trace != [] {
      var n := |trace| - 1;
      var shorter := trace[..n];
      assert Plain(rpm, shorter) by {
        forall k | 0 <= k < n ensures SameAnswer(rpm, shorter, k) {
          assert SameAnswer(rpm, trace, k) && shorter[..k] == trace[..k];
        }
      }
      PlainAllows(rpm, shorter, a, m);
      assert SameAnswer(rpm, trace, n);
      UnsyncedAnswers(rpm, trace);
    }
  }

  /** Without sync and restarts a replica keeps an actor's budget for the minute if and only if it gets
      fewer than 2^32 requests for it. */
  lemma PlainBudgetIff(rpm: nat, trace: seq<Decision>, a: Actor, m: nat)
    requires 0 < rpm < U32 && Plain(rpm, trace)
    ensures Allowed(trace, 0, a, m) <= rpm <==> Attempts(trace, 0, a, m) < U32
  {
    var n := Attempts(trace, 0, a, m);
    PlainAllows(rpm, trace, a, m);
    if n < U32 {
      PassingBelow(rpm, n);
    } else {
      PassingBelow(rpm, U32 - 1);
      PassingGrows(rpm, U32, n);
    }
  }
}
