/** The `leader_lease` row and the election loop that renews it. Times are milliseconds, the
    precision of the stored text; `Text.StampOrder` is why comparing the text compares the times. */
module Lease {
  import opened Options

  type Id = nat

  datatype Row = Row(holder: Id, expires: nat)

  function Max(a: int, b: int): int {
    if a < b then b else a
  }

  /** `(monitor_interval_secs * 3).max(30)`. */
  function LeaseTtlSecs(monitorIntervalSecs: nat): (r: nat)
    ensures r >= 30 && r >= 3 * monitorIntervalSecs
    ensures monitorIntervalSecs <= 10 ==> r == 30
    ensures monitorIntervalSecs > 10 ==> r == 3 * monitorIntervalSecs
  {
    Max(monitorIntervalSecs * 3, 30)
  }

  /** `ttl_secs.max(1)`, in milliseconds. */
  function TtlMs(ttlSecs: int): (r: nat)
    ensures r >= 1000 && (ttlSecs >= 1 ==> r == 1000 * ttlSecs)
  {
    1000 * Max(ttlSecs, 1)
  }

  /** `(ttl_secs / 2).max(5)`, in milliseconds; the division truncates toward zero. */
  function RenewMs(ttlSecs: int): (r: nat)
    ensures r >= 5000 && (ttlSecs < 12 ==> r == 5000)
    ensures ttlSecs >= 10 ==> r <= 500 * ttlSecs < r + 1000
  {
    1000 * Max(if ttlSecs < 0 then -(-ttlSecs / 2) else ttlSecs / 2, 5)
  }

  /** May `holder`, whose clock reads `now`, write the row? */
  predicate MayTake(row: Option<Row>, holder: Id, now: nat) {
    row.None? || row.value.expires < now || row.value.holder == holder
  }

  /** `INSERT .. ON CONFLICT DO UPDATE .. WHERE expires_at < now OR holder = me`, one statement. */
  function Upsert(row: Option<Row>, holder: Id, now: nat, ttlMs: nat): (r: Option<Row>) {
    if MayTake(row, holder, now) then Some(Row(holder, now + ttlMs)) else row
  }

  predicate HeldBy(row: Option<Row>, holder: Id) {
    row.Some? && row.value.holder == holder
  }

  /** The table row, updated in place. */
  class LeaseTable {
    var row: Option<Row>

    constructor ()
      ensures row == None
    {
      row := None;
    }

    /** One undisturbed `try_acquire`: it owns the lease exactly when it could take it, and a live
        lease of another holder is left alone. */
    method TryAcquire(holder: Id, now: nat, ttlSecs: int) returns (owns: bool)
      modifies this
      ensures row == Upsert(old(row), holder, now, TtlMs(ttlSecs))
      ensures owns <==> MayTake(old(row), holder, now)
      ensures owns ==> row == Some(Row(holder, now + TtlMs(ttlSecs)))
      ensures !owns ==> row == old(row)
    {
      if row.None? || row.value.expires < now || row.value.holder == holder {
        row := Some(Row(holder, now + TtlMs(ttlSecs)));
      }
      var current := row;
      owns := current.Some? && current.value.holder == holder;
    }
  }

  datatype Outcome = Owns | NotOwner | QueryFailed

  /** One iteration of the loop: only an answer changes the flag; an error leaves it as it was. */
  class Elector {
    var isLeader: bool

    constructor ()
      ensures !isLeader
    {
      isLeader := false;
    }

    method OnOutcome(o: Outcome) returns (acquired: bool, lost: bool)
      modifies this
      ensures isLeader == NextFlag(old(isLeader), o)
      ensures !o.QueryFailed? ==> isLeader == o.Owns?
      ensures o.QueryFailed? ==> isLeader == old(isLeader)
      ensures acquired <==> !old(isLeader) && isLeader
      ensures lost <==> old(isLeader) && !isLeader
    {
      var was := isLeader;
      match o {
        case Owns => isLeader := true;
        case NotOwner => isLeader := false;
        case QueryFailed =>
      }
      acquired, lost := isLeader && !was, !isLeader && was;
    }
  }

  function NextFlag(flag: bool, o: Outcome): bool {
    match o case Owns => true case NotOwner => false case QueryFailed => flag
  }

  /** Where an instance is inside `try_acquire`. */
  datatype Phase = Idle | HaveClock(now: nat) | Wrote(now: nat)

  /** `due`: when the interval timer next fires. `lastRead`: the latest clock reading it took. */
  datatype Instance = Instance(phase: Phase, isLeader: bool, due: nat, lastRead: nat)

  /** `latency` bounds, for punctual runs, how long after its timer an attempt may still be running. */
  datatype Config = Config(ttlSecs: int, latency: nat)

  /** `grants[i]`: the expiry `i` wrote when it last took or renewed the lease. An id outlives a crash: a
      container restarted in its pod keeps its host name and process id. */
  datatype State = State(clock: nat, row: Option<Row>, live: map<Id, Instance>, grants: map<Id, nat>)

  datatype Step =
    | Tick(to: nat)
    | Join(id: Id)
    | Crash(id: Id)
    | ReadClock(id: Id)
    | DoUpsert(id: Id)
    | DoSelect(id: Id)
    | Fail(id: Id)

  predicate Enabled(c: Config, s: State, step: Step) {
    match step
    case Tick(to) => s.clock <= to
    case Join(i) => i !in s.live
    case Crash(i) => i in s.live
    case ReadClock(i) => i in s.live && s.live[i].phase.Idle? && s.live[i].due <= s.clock
    case DoUpsert(i) => i in s.live && s.live[i].phase.HaveClock?
    case DoSelect(i) => i in s.live && s.live[i].phase.Wrote?
    case Fail(i) => i in s.live && !s.live[i].phase.Idle?
  }

  /** The clock does not run past an attempt's allowance: timers fire and attempts finish. */
  predicate OnTime(c: Config, s: State, step: Step) {
    step.Tick? ==> forall i | i in s.live :: step.to <= s.live[i].due + c.latency
  }

  function Apply(c: Config, s: State, step: Step): (t: State)
    requires Enabled(c, s, step)
  {
    match step
    case Tick(to) => s.(clock := to)
    case Join(i) => s.(live := s.live[i := Instance(Idle, false, s.clock, s.clock)])
    case Crash(i) => s.(live := s.live - {i})
    case ReadClock(i) => s.(live := s.live[i := s.live[i].(phase := HaveClock(s.clock), lastRead := s.clock)])
    case DoUpsert(i) =>
      var now := s.live[i].phase.now;
      s.(row := Upsert(s.row, i, now, TtlMs(c.ttlSecs)),
         grants := if MayTake(s.row, i, now) then s.grants[i := now + TtlMs(c.ttlSecs)] else s.grants,
         live := s.live[i := s.live[i].(phase := Wrote(now))])
    case DoSelect(i) =>
      Finish(c, s, i, if HeldBy(s.row, i) then Owns else NotOwner)
    case Fail(i) => Finish(c, s, i, QueryFailed)
  }

  function Finish(c: Config, s: State, i: Id, o: Outcome): (t: State)
    requires i in s.live
  {
    var inst := s.live[i];
    s.(live := s.live[i := Instance(Idle, NextFlag(inst.isLeader, o), inst.due + RenewMs(c.ttlSecs), inst.lastRead)])
  }

  const INIT := State(0, None, map[], map[])

  predicate IsRun(c: Config, s: State, steps: seq<Step>)
    decreases |steps|
  {
    steps == [] || (Enabled(c, s, steps[0]) && IsRun(c, Apply(c, s, steps[0]), steps[1..]))
  }

  function After(c: Config, s: State, steps: seq<Step>): (t: State)
    requires IsRun(c, s, steps)
    decreases |steps|
  {
    if steps == [] then s else After(c, Apply(c, s, steps[0]), steps[1..])
  }

  /** Every instance keeps to its timer. */
  predicate Punctual(c: Config, s: State, steps: seq<Step>)
    requires IsRun(c, s, steps)
    decreases |steps|
  {
    steps == [] || (OnTime(c, s, steps[0]) && Punctual(c, Apply(c, s, steps[0]), steps[1..]))
  }

  predicate NoQueryFails(steps: seq<Step>) {
    forall k | 0 <= k < |steps| :: !steps[k].Fail?
  }

  /** A grant nobody may take over yet. */
  predicate Unexpired(s: State, i: Id) {
    i in s.grants && s.clock <= s.grants[i]
  }

  ghost predicate OneGrant(s: State) {
    forall i, j | Unexpired(s, i) && Unexpired(s, j) :: i == j
  }

  ghost predicate OneLeader(s: State) {
    forall i, j | i in s.live && j in s.live && s.live[i].isLeader && s.live[j].isLeader :: i == j
  }

  // ---- Grants, for every interleaving ----

  ghost predicate InstanceInv(c: Config, s: State, i: Id)
    requires i in s.live
  {
    var inst := s.live[i];
    && inst.lastRead <= s.clock
    && (inst.phase.HaveClock? || inst.phase.Wrote? ==> inst.phase.now == inst.lastRead)
    && (i in s.grants ==> s.grants[i] <= inst.lastRead + TtlMs(c.ttlSecs))
  }

  ghost predicate Inv(c: Config, s: State) {
    && (forall i | i in s.live :: InstanceInv(c, s, i))
    && (forall j | j in s.grants :: s.grants[j] <= s.clock + TtlMs(c.ttlSecs))
    && (s.row.None? ==> s.grants == map[])
    && (s.row.Some? ==> s.row.value.holder in s.grants && s.grants[s.row.value.holder] == s.row.value.expires)
    && (forall j | j in s.grants && !HeldBy(s.row, j) :: s.grants[j] < s.clock)
  }

  /** Besides the invariant: an instance's expiry never moves backwards, however stale its reading. */
  lemma StepKeepsInv(c: Config, s: State, step: Step)
    requires Inv(c, s) && Enabled(c, s, step)
    ensures Inv(c, Apply(c, s, step))
    ensures forall i | i in s.grants :: i in Apply(c, s, step).grants && s.grants[i] <= Apply(c, s, step).grants[i]
  {
    var t := Apply(c, s, step);
    match step {
      case DoUpsert(i) =>
        assert InstanceInv(c, s, i);
        forall j | j in t.live ensures InstanceInv(c, t, j) {
          assert InstanceInv(c, s, j);
        }
      case _ =>
        forall j | j in t.live ensures InstanceInv(c, t, j) {
          if j in s.live { assert InstanceInv(c, s, j); }
        }
    }
  }

  lemma {:induction false} RunKeepsInv(c: Config, s: State, steps: seq<Step>)
    requires Inv(c, s) && IsRun(c, s, steps)
    ensures Inv(c, After(c, s, steps))
    decreases |steps|
  {
    if steps != [] {
      StepKeepsInv(c, s, steps[0]);
      RunKeepsInv(c, Apply(c, s, steps[0]), steps[1..]);
    }
  }

  /** Any number of instances, any interleaving of their statements, any delay between reading the
      clock and writing, crashes and failed queries included: one unexpired grant at a time. */
  lemma GrantsAreExclusive(c: Config, steps: seq<Step>)
    requires IsRun(c, INIT, steps)
    ensures OneGrant(After(c, INIT, steps))
  {
    RunKeepsInv(c, INIT, steps);
  }

  /** An expired lease goes to the first attempt that reads a clock past its expiry: until then nobody but
      its holder can write the row, and that attempt writes it whoever makes it. */
  lemma ExpiredIsTaken(row: Option<Row>, holder: Id, now: nat, ttlMs: nat)
    requires row.Some? && holder != row.value.holder
    ensures HeldBy(Upsert(row, holder, now, ttlMs), holder) <==> row.value.expires < now
    ensures now <= row.value.expires ==> Upsert(row, holder, now, ttlMs) == row
    ensures row.value.expires < now ==> Upsert(row, holder, now, ttlMs) == Some(Row(holder, now + ttlMs))
  {
  }

  /** A holder renews whenever it asks, and a free lease goes to whoever asks first. */
  lemma FreeOrOwnIsTaken(row: Option<Row>, holder: Id, now: nat, ttlMs: nat)
    requires row.None? || row.value.holder == holder
    ensures Upsert(row, holder, now, ttlMs) == Some(Row(holder, now + ttlMs))
  {
  }

  // ---- The cached flag ----

  /** A completed attempt sets the flag to what the row says; a failed one leaves it as it was. */
  lemma FlagFollowsTheRow(c: Config, s: State, i: Id)
    ensures Enabled(c, s, DoSelect(i)) ==>
              var t := Apply(c, s, DoSelect(i));
              t.live[i].isLeader <==> s.row.Some? && s.row.value.holder == i
    ensures Enabled(c, s, Fail(i)) ==> Apply(c, s, Fail(i)).live[i].isLeader == s.live[i].isLeader
  {
  }

  ghost predicate FlagInv(c: Config, s: State, i: Id)
    requires i in s.live
  {
    var inst := s.live[i];
    && s.clock <= inst.due + c.latency
    && (inst.phase.HaveClock? || inst.phase.Wrote? ==> inst.due <= inst.phase.now)
    && (inst.phase.Wrote? && HeldBy(s.row, i) ==> i in s.grants && s.grants[i] == inst.phase.now + TtlMs(c.ttlSecs))
    && (inst.isLeader ==> i in s.grants && inst.due + TtlMs(c.ttlSecs) <= s.grants[i] + RenewMs(c.ttlSecs))
  }

  /** The renewal period and the allowance together fit in the TTL. */
  predicate Budget(c: Config) {
    RenewMs(c.ttlSecs) + c.latency <= TtlMs(c.ttlSecs)
  }

  lemma StepKeepsFlags(c: Config, s: State, step: Step)
    requires Inv(c, s) && Budget(c) && Enabled(c, s, step) && OnTime(c, s, step) && !step.Fail?
    requires forall i | i in s.live :: FlagInv(c, s, i)
    ensures forall i | i in Apply(c, s, step).live :: FlagInv(c, Apply(c, s, step), i)
  {
    var t := Apply(c, s, step);
    StepKeepsInv(c, s, step);
    forall i | i in t.live ensures FlagInv(c, t, i) {
      if i in s.live {
        assert FlagInv(c, s, i) && InstanceInv(c, s, i);
      }
    }
  }

  lemma {:induction false} RunKeepsFlags(c: Config, s: State, steps: seq<Step>)
    requires Inv(c, s) && Budget(c) && IsRun(c, s, steps) && Punctual(c, s, steps) && NoQueryFails(steps)
    requires forall i | i in s.live :: FlagInv(c, s, i)
    ensures Inv(c, After(c, s, steps))
    ensures forall i | i in After(c, s, steps).live :: FlagInv(c, After(c, s, steps), i)
    decreases |steps|
  {
    if steps != [] {
      StepKeepsInv(c, s, steps[0]);
      StepKeepsFlags(c, s, steps[0]);
      RunKeepsFlags(c, Apply(c, s, steps[0]), steps[1..]);
    }
  }

  /** A true flag stands for a lease nobody can have taken. */
  lemma LeaderHoldsTheRow(c: Config, s: State, i: Id)
    requires Inv(c, s) && Budget(c) && i in s.live && FlagInv(c, s, i) && s.live[i].isLeader
    ensures Unexpired(s, i) && HeldBy(s.row, i)
  {
  }

  /** With the gateway's own TTL and renewal period, and attempts that finish within the other half
      of the TTL, at most one replica runs the periodic workers at any time. */
  lemma LeadersAreExclusive(monitorIntervalSecs: nat, latency: nat, steps: seq<Step>)
    requires var ttl := LeaseTtlSecs(monitorIntervalSecs); latency <= 1000 * (ttl - ttl / 2)
    requires IsRun(Config(LeaseTtlSecs(monitorIntervalSecs), latency), INIT, steps)
    requires Punctual(Config(LeaseTtlSecs(monitorIntervalSecs), latency), INIT, steps)
    requires NoQueryFails(steps)
    ensures OneLeader(After(Config(LeaseTtlSecs(monitorIntervalSecs), latency), INIT, steps))
  {
    var c := Config(LeaseTtlSecs(monitorIntervalSecs), latency);
    RunKeepsFlags(c, INIT, steps);
    var s := After(c, INIT, steps);
    forall i, j | i in s.live && j in s.live && s.live[i].isLeader && s.live[j].isLeader ensures i == j {
      LeaderHoldsTheRow(c, s, i);
      LeaderHoldsTheRow(c, s, j);
    }
  }

  /** Whatever failed or came late: as long as every leader's grant is unexpired there is one leader. */
  lemma LiveGrantsMeanOneLeader(c: Config, steps: seq<Step>)
    requires IsRun(c, INIT, steps)
    requires var s := After(c, INIT, steps); forall i | i in s.live && s.live[i].isLeader :: Unexpired(s, i)
    ensures OneLeader(After(c, INIT, steps))
  {
    GrantsAreExclusive(c, steps);
  }

  /** And a flag that outlives its grant is all it takes: any other instance `j` that starts, for the
      first time or again, and waits out the current row becomes a second leader. */
  lemma ExpiredLeaderCanBeDoubled(c: Config, steps: seq<Step>, i: Id, j: Id)
    requires IsRun(c, INIT, steps)
    requires var s := After(c, INIT, steps);
             && i in s.live && s.live[i].isLeader && !Unexpired(s, i)
             && j !in s.live
    ensures exists more :: IsRun(c, INIT, steps + more) && !OneLeader(After(c, INIT, steps + more))
  {
    var s := After(c, INIT, steps);
    var to := if s.row.Some? then Max(s.clock, s.row.value.expires + 1) else s.clock;
    var r1 := steps + [Tick(to)];
    Extend(c, INIT, steps, Tick(to));
    var r2 := r1 + [Join(j)];
    Extend(c, INIT, r1, Join(j));
    var r3 := r2 + [ReadClock(j)];
    Extend(c, INIT, r2, ReadClock(j));
    var r4 := r3 + [DoUpsert(j)];
    Extend(c, INIT, r3, DoUpsert(j));
    var r5 := r4 + [DoSelect(j)];
    Extend(c, INIT, r4, DoSelect(j));
    var t := After(c, INIT, r5);
    assert t.live[i].isLeader && t.live[j].isLeader;
    assert r5 == steps + [Tick(to), Join(j), ReadClock(j), DoUpsert(j), DoSelect(j)];
  }

  // ---- Recovery ----

  /** What holds of an attempt in any run, late or not. */
  ghost predicate AttemptInv(c: Config, s: State, i: Id)
    requires i in s.live
  {
    var inst := s.live[i];
    && (!inst.phase.Idle? ==> inst.due <= inst.phase.now)
    && (inst.phase.Wrote? && HeldBy(s.row, i) ==> i in s.grants && s.grants[i] == inst.phase.now + TtlMs(c.ttlSecs))
  }

  lemma StepKeepsAttempts(c: Config, s: State, step: Step)
    requires Inv(c, s) && Enabled(c, s, step) && forall i | i in s.live :: AttemptInv(c, s, i)
    ensures forall i | i in Apply(c, s, step).live :: AttemptInv(c, Apply(c, s, step), i)
  {
    var t := Apply(c, s, step);
    forall i | i in t.live ensures AttemptInv(c, t, i) {
      if i in s.live { assert AttemptInv(c, s, i); }
    }
  }

  lemma {:induction false} RunKeepsAttempts(c: Config, s: State, steps: seq<Step>)
    requires Inv(c, s) && IsRun(c, s, steps) && forall i | i in s.live :: AttemptInv(c, s, i)
    ensures forall i | i in After(c, s, steps).live :: AttemptInv(c, After(c, s, steps), i)
    decreases |steps|
  {
    if steps != [] {
      StepKeepsInv(c, s, steps[0]);
      StepKeepsAttempts(c, s, steps[0]);
      RunKeepsAttempts(c, Apply(c, s, steps[0]), steps[1..]);
    }
  }

  /** Which instances have begun, and which have finished, an attempt of their own since some moment. One
      that joins starts with a clean flag. */
  datatype Since = Since(begun: set<Id>, done: set<Id>)

  function Note(p: Since, step: Step): (q: Since) {
    match step
    case ReadClock(i) => p.(begun := p.begun + {i})
    case DoSelect(i) => if i in p.begun then p.(done := p.done + {i}) else p
    case Join(i) => Since(p.begun + {i}, p.done + {i})
    case _ => p
  }

  function Notes(p: Since, steps: seq<Step>): (q: Since)
    decreases |steps|
  {
    if steps == [] then p else Notes(Note(p, steps[0]), steps[1..])
  }

  /** An attempt begun since is not late, and a flag set since stands for an unexpired grant that will be
      renewed in time. */
  ghost predicate Recovered(c: Config, s: State, p: Since, i: Id)
    requires i in s.live
  {
    var inst := s.live[i];
    && (i in p.begun && !inst.phase.Idle? ==> s.clock <= inst.phase.now + c.latency)
    && (i in p.done ==> i in p.begun)
    && (i in p.done && inst.isLeader ==>
          && Unexpired(s, i)
          && inst.due + TtlMs(c.ttlSecs) <= s.grants[i] + RenewMs(c.ttlSecs))
  }

  lemma StepRecovers(c: Config, s: State, step: Step, p: Since, i: Id)
    requires Inv(c, s) && Budget(c) && Enabled(c, s, step) && OnTime(c, s, step) && !step.Fail?
    requires forall j | j in s.live :: AttemptInv(c, s, j)
    requires i in Apply(c, s, step).live && (i in s.live ==> Recovered(c, s, p, i))
    ensures Recovered(c, Apply(c, s, step), Note(p, step), i)
  {
    StepKeepsInv(c, s, step);
    if i in s.live { assert AttemptInv(c, s, i); }
  }

  lemma {:induction false} RunRecovers(c: Config, s: State, steps: seq<Step>, p: Since)
    requires Inv(c, s) && Budget(c) && IsRun(c, s, steps) && Punctual(c, s, steps) && NoQueryFails(steps)
    requires forall i | i in s.live :: AttemptInv(c, s, i) && Recovered(c, s, p, i)
    ensures forall i | i in After(c, s, steps).live :: Recovered(c, After(c, s, steps), Notes(p, steps), i)
    decreases |steps|
  {
    if steps != [] {
      var t := Apply(c, s, steps[0]);
      StepKeepsInv(c, s, steps[0]);
      StepKeepsAttempts(c, s, steps[0]);
      forall i | i in t.live ensures Recovered(c, t, Note(p, steps[0]), i) {
        StepRecovers(c, s, steps[0], p, i);
      }
      RunRecovers(c, t, steps[1..], Note(p, steps[0]));
    }
  }

  /** From every reachable state, whatever failed before and however many leaders there are: once attempts
      are on time again and do not fail, and every live instance has made one from start to end, there is
      at most one leader. */
  lemma OneLeaderAgain(c: Config, before: seq<Step>, steps: seq<Step>)
    requires Budget(c) && IsRun(c, INIT, before)
    requires var s := After(c, INIT, before);
             IsRun(c, s, steps) && Punctual(c, s, steps) && NoQueryFails(steps)
    requires var t := After(c, After(c, INIT, before), steps);
             forall i | i in t.live :: i in Notes(Since({}, {}), steps).done
    ensures OneLeader(After(c, After(c, INIT, before), steps))
  {
    var s := After(c, INIT, before);
    RunKeepsInv(c, INIT, before);
    RunKeepsAttempts(c, INIT, before);
    RunKeepsInv(c, s, steps);
    RunRecovers(c, s, steps, Since({}, {}));
    var t := After(c, s, steps);
    forall i, j | i in t.live && j in t.live && t.live[i].isLeader && t.live[j].isLeader ensures i == j {
      assert Recovered(c, t, Notes(Since({}, {}), steps), i) && Recovered(c, t, Notes(Since({}, {}), steps), j);
    }
  }

  /** One more step, with the state it leads to spelled out by the caller. */
  lemma Then(c: Config, steps: seq<Step>, s: State, step: Step, t: State) returns (longer: seq<Step>)
    requires IsRun(c, INIT, steps) && Punctual(c, INIT, steps) && After(c, INIT, steps) == s
    requires Enabled(c, s, step) && OnTime(c, s, step) && Apply(c, s, step) == t
    ensures IsRun(c, INIT, longer) && Punctual(c, INIT, longer) && After(c, INIT, longer) == t
  {
    longer := steps + [step];
    Extend(c, INIT, steps, step);
  }

  /** One failed renewal, everything else on time, gets there. */
  lemma FailedRenewalExpiresALeader() returns (steps: seq<Step>)
    ensures var c := Config(LeaseTtlSecs(10), 15000);
            && IsRun(c, INIT, steps) && Punctual(c, INIT, steps)
            && var s := After(c, INIT, steps);
            && 1 in s.live && s.live[1].isLeader && !Unexpired(s, 1)
  {
    var c := Config(30, 15000);
    var s4 := ONE_LEADER;
    var s5 := s4.(clock := 15000);
    var s6 := s5.(live := map[1 := Instance(HaveClock(15000), true, 15000, 15000)]);
    var s7 := s6.(live := map[1 := Instance(Idle, true, 30000, 15000)]);
    steps := FirstTakesTheLease();
    steps := Then(c, steps, s4, Tick(15000), s5);
    steps := Then(c, steps, s5, ReadClock(1), s6);
    steps := Then(c, steps, s6, Fail(1), s7);
    steps := Then(c, steps, s7, Tick(30001), s7.(clock := 30001));
  }

  /** The only instance, just after its first attempt. */
  const ONE_LEADER: State :=
    State(0, Some(Row(1, 30000)), map[1 := Instance(Idle, true, 15000, 0)], map[1 := 30000])

  lemma FirstTakesTheLease() returns (steps: seq<Step>)
    ensures var c := Config(30, 15000);
            IsRun(c, INIT, steps) && Punctual(c, INIT, steps) && After(c, INIT, steps) == ONE_LEADER
  {
    var c := Config(30, 15000);
    var s1 := State(0, None, map[1 := Instance(Idle, false, 0, 0)], map[]);
    var s2 := s1.(live := map[1 := Instance(HaveClock(0), false, 0, 0)]);
    var s3 := ONE_LEADER.(live := map[1 := Instance(Wrote(0), false, 0, 0)]);
    steps := Then(c, [], INIT, Join(1), s1);
    steps := Then(c, steps, s1, ReadClock(1), s2);
    steps := Then(c, steps, s2, DoUpsert(1), s3);
    steps := Then(c, steps, s3, DoSelect(1), ONE_LEADER);
  }

  lemma {:induction false} Extend(c: Config, s: State, steps: seq<Step>, step: Step)
    requires IsRun(c, s, steps) && Enabled(c, After(c, s, steps), step)
    ensures IsRun(c, s, steps + [step])
    ensures After(c, s, steps + [step]) == Apply(c, After(c, s, steps), step)
    ensures Punctual(c, s, steps) && OnTime(c, After(c, s, steps), step) ==> Punctual(c, s, steps + [step])
    decreases |steps|
  {
    if steps == [] {
      assert steps + [step] == [step] && [step][1..] == [];
      assert IsRun(c, Apply(c, s, step), []);
    } else {
      assert (steps + [step])[1..] == steps[1..] + [step];
      Extend(c, Apply(c, s, steps[0]), steps[1..], step);
    }
  }
}
