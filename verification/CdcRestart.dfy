/** The reconciler's bounded self-heal of stalled CDC streams, interleaved with whatever operators
    and stage jobs do to the same rows. */
module CdcRestart {
  import opened Options

  const MAX_CDC_RESTARTS: nat := 3

  datatype StreamState = Starting | Streaming | Stopped | Error

  /** `restarts` is the row's `restart_count`. The other two count automatic bumps: those made while
      handling this very stream, and those made while handling some other stream of the plan. */
  datatype Stream = Stream(state: StreamState, restarts: nat, own: nat, misdirected: nat)

  /** A row of `list_by_state("streaming")` as it was when listed. */
  datatype Listed = Listed(id: nat, restarts: nat)

  /** Where `restart_cdc` is: `target` is the stream the plan pointed at when it was read. */
  datatype Pass = Ready | Bumping(entry: Listed, target: nat) | Reapplying(target: nat)

  /** `pointer` is the plan's `cdc_stream_id`; `todo` is the rest of the reconciler's listing. */
  datatype State = State(streams: seq<Stream>, pointer: Option<nat>, todo: seq<Listed>, pass: Pass)

  const INIT := State([], None, [], Ready)

  datatype Step =
    // stage jobs and operators, at any time
    | Insert
    | PointAt(id: nat)
    | SetState(id: nat, state: StreamState)
    | ManualBump(id: nat)
    // the reconciler
    | List(ids: seq<nat>)
    | Examine(running: bool)
    | AutoBump
    | BumpFailed
    | Reapply(ok: bool)

  ghost predicate Lists(s: State, ids: seq<nat>) {
    && (forall k | 0 <= k < |ids| :: ids[k] < |s.streams| && s.streams[ids[k]].state == Streaming)
    && (forall i | 0 <= i < |s.streams| && s.streams[i].state == Streaming :: i in ids)
    && (forall k, l | 0 <= k < l < |ids| :: ids[k] != ids[l])
  }

  ghost predicate Enabled(s: State, step: Step) {
    match step
    case Insert => true
    case PointAt(id) => id < |s.streams|
    case SetState(id, _) => id < |s.streams|
    case ManualBump(id) => id < |s.streams|
    case List(ids) => s.pass == Ready && s.todo == [] && Lists(s, ids)
    case Examine(_) => s.pass == Ready && s.todo != [] && s.todo[0].id < |s.streams|
    case AutoBump => s.pass.Bumping? && s.pass.target < |s.streams|
    case BumpFailed => s.pass.Bumping?
    case Reapply(_) => s.pass.Reapplying? && s.pass.target < |s.streams|
  }

  function Update(s: State, id: nat, st: Stream): State
    requires id < |s.streams|
  {
    s.(streams := s.streams[id := st])
  }

  function Apply(s: State, step: Step): (t: State)
    requires Enabled(s, step)
  {
    match step
    case Insert => s.(streams := s.streams + [Stream(Starting, 0, 0, 0)])
    case PointAt(id) => s.(pointer := Some(id))
    case SetState(id, state) => Update(s, id, s.streams[id].(state := state))
    case ManualBump(id) => Update(s, id, s.streams[id].(restarts := s.streams[id].restarts + 1))
    case List(ids) =>
      s.(todo := seq(|ids|, k requires 0 <= k < |ids| && Enabled(s, step) =>
        Listed(ids[k], s.streams[ids[k]].restarts)))
    case Examine(running) =>
      var entry := s.todo[0];
      var rest := s.(todo := s.todo[1..]);
      if running then rest
      else if entry.restarts < MAX_CDC_RESTARTS then
        if s.pointer.Some? then rest.(pass := Bumping(entry, s.pointer.value)) else rest
      else Update(rest, entry.id, s.streams[entry.id].(state := Error))
    case AutoBump =>
      var p := s.pass.target;
      var st := s.streams[p];
      var bumped := if p == s.pass.entry.id then st.(own := st.own + 1) else st.(misdirected := st.misdirected + 1);
      Update(s, p, bumped.(restarts := st.restarts + 1)).(pass := Reapplying(p))
    case BumpFailed => s.(pass := Ready)
    case Reapply(ok) =>
      var p := s.pass.target;
      (if ok then Update(s, p, s.streams[p].(state := Streaming)) else s).(pass := Ready)
  }

  ghost predicate IsRun(s: State, steps: seq<Step>)
    decreases |steps|
  {
    steps == [] || (Enabled(s, steps[0]) && IsRun(Apply(s, steps[0]), steps[1..]))
  }

  ghost function After(s: State, steps: seq<Step>): (t: State)
    requires IsRun(s, steps)
    decreases |steps|
  {
    if steps == [] then s else After(Apply(s, steps[0]), steps[1..])
  }

  ghost predicate StreamInv(st: Stream) {
    st.own <= st.restarts && st.own <= MAX_CDC_RESTARTS
  }

  /** Since it was listed, the stream has not been handled again. */
  ghost predicate EntryInv(s: State, e: Listed) {
    e.id < |s.streams| && s.streams[e.id].own <= e.restarts
  }

  ghost predicate PassInv(s: State) {
    s.pass.Bumping? ==>
      var e := s.pass.entry;
      && EntryInv(s, e) && e.restarts < MAX_CDC_RESTARTS
      && (forall k | 0 <= k < |s.todo| :: s.todo[k].id != e.id)
  }

  ghost predicate Inv(s: State) {
    && (s.pointer.Some? ==> s.pointer.value < |s.streams|)
    && (forall i | 0 <= i < |s.streams| :: StreamInv(s.streams[i]))
    && (forall k | 0 <= k < |s.todo| :: EntryInv(s, s.todo[k]))
    && (forall k, l | 0 <= k < l < |s.todo| :: s.todo[k].id != s.todo[l].id)
    && PassInv(s)
  }

  /** Steps that leave the listing and every `own` count alone. */
  lemma QuietStepKeepsInv(s: State, step: Step)
    requires Inv(s) && Enabled(s, step)
    requires !step.List? && !step.Examine? && !step.AutoBump?
    ensures Inv(Apply(s, step))
  {
    var t := Apply(s, step);
    assert |s.streams| <= |t.streams| && t.todo == s.todo;
    forall i | 0 <= i < |t.streams|
      ensures StreamInv(t.streams[i]) && (i < |s.streams| ==> t.streams[i].own == s.streams[i].own)
    {
      if i < |s.streams| { assert StreamInv(s.streams[i]); }
    }
    forall k | 0 <= k < |t.todo| ensures EntryInv(t, t.todo[k]) { assert EntryInv(s, s.todo[k]); }
  }

  lemma ListKeepsInv(s: State, ids: seq<nat>)
    requires Inv(s) && Enabled(s, List(ids))
    ensures Inv(Apply(s, List(ids)))
  {
    var t := Apply(s, List(ids));
    forall k | 0 <= k < |t.todo| ensures EntryInv(t, t.todo[k]) {
      assert StreamInv(s.streams[ids[k]]);
    }
  }

  lemma ExamineKeepsInv(s: State, running: bool)
    requires Inv(s) && Enabled(s, Examine(running))
    ensures Inv(Apply(s, Examine(running)))
  {
    var t := Apply(s, Examine(running));
    assert EntryInv(s, s.todo[0]);
    forall i | 0 <= i < |t.streams| ensures StreamInv(t.streams[i]) { assert StreamInv(s.streams[i]); }
    forall k | 0 <= k < |t.todo| ensures EntryInv(t, t.todo[k]) && t.todo[k].id != s.todo[0].id {
      assert EntryInv(s, s.todo[k + 1]);
    }
    forall k, l | 0 <= k < l < |t.todo| ensures t.todo[k].id != t.todo[l].id {
      assert s.todo[k + 1].id != s.todo[l + 1].id;
    }
  }

  lemma BumpKeepsInv(s: State)
    requires Inv(s) && Enabled(s, AutoBump)
    ensures Inv(Apply(s, AutoBump))
  {
    var t := Apply(s, AutoBump);
    forall i | 0 <= i < |t.streams| ensures StreamInv(t.streams[i]) { assert StreamInv(s.streams[i]); }
    forall k | 0 <= k < |t.todo| ensures EntryInv(t, t.todo[k]) { assert EntryInv(s, s.todo[k]); }
  }

  lemma StepKeepsInv(s: State, step: Step)
    requires Inv(s) && Enabled(s, step)
    ensures Inv(Apply(s, step))
  {
    match step
    case List(ids) => ListKeepsInv(s, ids);
    case Examine(running) => ExamineKeepsInv(s, running);
    case AutoBump => BumpKeepsInv(s);
    case _ => QuietStepKeepsInv(s, step);
  }

  lemma {:induction false} RunKeepsInv(s: State, steps: seq<Step>)
    requires Inv(s) && IsRun(s, steps)
    ensures Inv(After(s, steps))
    decreases |steps|
  {
    if steps != [] {
      StepKeepsInv(s, steps[0]);
      RunKeepsInv(Apply(s, steps[0]), steps[1..]);
    }
  }

  /** Over a stream's whole life, whatever else bumps or resets it: handling the stream itself
      restarts it automatically at most three times. */
  lemma OwnRestartsAreBounded(steps: seq<Step>, i: nat)
    requires IsRun(INIT, steps) && i < |After(INIT, steps).streams|
    ensures After(INIT, steps).streams[i].own <= 3
  {
    RunKeepsInv(INIT, steps);
    assert StreamInv(After(INIT, steps).streams[i]);
  }

  // ---- The row's counter ----

  /** Restarts of stream `i` that an operator asked for. */
  function Manual(steps: seq<Step>, i: nat): (n: nat) {
    if steps == [] then 0 else (if steps[0] == ManualBump(i) then 1 else 0) + Manual(steps[1..], i)
  }

  function Unattributed(s: State, i: nat): (n: int) {
    if i < |s.streams| then s.streams[i].restarts - s.streams[i].own - s.streams[i].misdirected else 0
  }

  lemma {:induction false} RunCounts(s: State, steps: seq<Step>, i: nat)
    requires IsRun(s, steps)
    ensures Unattributed(After(s, steps), i) == Unattributed(s, i) + Manual(steps, i)
    decreases |steps|
  {
    if steps != [] {
      RunCounts(Apply(s, steps[0]), steps[1..], i);
    }
  }

  /** `restart_count` counts every restart of the row and nothing else: the operator's, those the reconciler
      made for this stream and those it made for another one. */
  lemma CounterCountsRestarts(steps: seq<Step>, i: nat)
    requires IsRun(INIT, steps) && i < |After(INIT, steps).streams|
    ensures var st := After(INIT, steps).streams[i]; st.restarts == st.own + st.misdirected + Manual(steps, i)
  {
    RunCounts(INIT, steps, i);
  }

  /** A listing holds every streaming row once, as it is, and no other. */
  lemma ListingIsComplete(s: State, ids: seq<nat>, i: nat)
    requires Enabled(s, List(ids))
    ensures var todo := Apply(s, List(ids)).todo;
            && ((exists k | 0 <= k < |todo| :: todo[k].id == i) <==> i < |s.streams| && s.streams[i].state == Streaming)
            && (forall k | 0 <= k < |todo| && todo[k].id == i ::
                  i < |s.streams| && todo[k].restarts == s.streams[i].restarts)
            && (forall k, l | 0 <= k < l < |todo| :: todo[k].id != todo[l].id)
  {
    var todo := Apply(s, List(ids)).todo;
    if i < |s.streams| && s.streams[i].state == Streaming {
      var k :| 0 <= k < |ids| && ids[k] == i;
      assert todo[k].id == i;
    }
  }

  ghost predicate NotAhead(s: State) {
    forall k | 0 <= k < |s.todo| ::
      s.todo[k].id < |s.streams| && s.todo[k].restarts <= s.streams[s.todo[k].id].restarts
  }

  lemma {:induction false} RunStaysNotAhead(s: State, steps: seq<Step>)
    requires NotAhead(s) && IsRun(s, steps)
    ensures NotAhead(After(s, steps))
    decreases |steps|
  {
    if steps != [] {
      StepStaysNotAhead(s, steps[0]);
      RunStaysNotAhead(Apply(s, steps[0]), steps[1..]);
    }
  }

  lemma StepStaysNotAhead(s: State, step: Step)
    requires NotAhead(s) && Enabled(s, step)
    ensures NotAhead(Apply(s, step))
  {
    var t := Apply(s, step);
    if !step.List? {
      assert forall i | 0 <= i < |s.streams| :: i < |t.streams| && s.streams[i].restarts <= t.streams[i].restarts;
      assert t.todo == s.todo || (s.todo != [] && t.todo == s.todo[1..]);
    }
  }

  /** In every run the reconciler gives up only on the listed stream, only when its connector is down, and
      only when the row has counted three restarts; looking at a stream changes no row otherwise. */
  lemma GivesUpOnlyWhenSpent(steps: seq<Step>, running: bool, i: nat)
    requires IsRun(INIT, steps) && Enabled(After(INIT, steps), Examine(running))
    requires i < |After(INIT, steps).streams|
    ensures var s := After(INIT, steps);
            var t := Apply(s, Examine(running));
            t.streams[i] != s.streams[i] ==>
              && i == s.todo[0].id && !running && s.streams[i].restarts >= 3
              && t.streams[i] == s.streams[i].(state := Error)
  {
    RunStaysNotAhead(INIT, steps);
  }

  /** What the reconciler makes of the first listed stream that the plan points at. */
  lemma StalledIsRestarted(s: State)
    requires s.pass == Ready && s.todo != [] && s.todo[0].id < |s.streams| && s.pointer == Some(s.todo[0].id)
    ensures var p, r := s.todo[0].id, s.todo[0].restarts;
            var t := Apply(s, Examine(false));
            // a running connector is left alone
            && Apply(s, Examine(true)) == s.(todo := s.todo[1..])
            // with fewer than three restarts on the listed row it is restarted, and counted
            && (r < 3 ==>
                  && Enabled(t, AutoBump)
                  && var u := Apply(t, AutoBump);
                  && Enabled(u, Reapply(true)) && Enabled(t, BumpFailed)
                  && var v := Apply(u, Reapply(true));
                  && v.streams[p].state == Streaming && v.streams[p].restarts == s.streams[p].restarts + 1
                  && Apply(u, Reapply(false)).streams[p].state == s.streams[p].state
                  && Apply(t, BumpFailed) == s.(todo := s.todo[1..]))
            // and with three it is given up
            && (r >= 3 ==> t.streams == s.streams[p := s.streams[p].(state := Error)] && t.pass == Ready)
  {
  }

  /** A stalled stream with restarts left, handled while the plan points somewhere else. */
  predicate Misdirects(s: State, step: Step) {
    && step == Examine(false) && s.todo != [] && s.todo[0].restarts < MAX_CDC_RESTARTS
    && s.pointer.Some? && s.pointer.value != s.todo[0].id
  }

  ghost predicate NeverMisdirects(s: State, steps: seq<Step>)
    requires IsRun(s, steps)
    decreases |steps|
  {
    steps == [] || (!Misdirects(s, steps[0]) && NeverMisdirects(Apply(s, steps[0]), steps[1..]))
  }

  ghost predicate Aimed(s: State) {
    && (forall i | 0 <= i < |s.streams| :: s.streams[i].misdirected == 0)
    && (s.pass.Bumping? ==> s.pass.target == s.pass.entry.id)
  }

  lemma {:induction false} RunStaysAimed(s: State, steps: seq<Step>)
    requires Aimed(s) && IsRun(s, steps) && NeverMisdirects(s, steps)
    ensures Aimed(After(s, steps))
    decreases |steps|
  {
    if steps != [] {
      RunStaysAimed(Apply(s, steps[0]), steps[1..]);
    }
  }

  /** So the documented bound on all automatic restarts holds while the reconciler only ever handles
      stalled streams that their plan still points at. */
  lemma AimedRestartsAreBounded(steps: seq<Step>, i: nat)
    requires IsRun(INIT, steps) && NeverMisdirects(INIT, steps)
    requires i < |After(INIT, steps).streams|
    ensures var st := After(INIT, steps).streams[i]; st.own + st.misdirected <= 3
  {
    RunKeepsInv(INIT, steps);
    RunStaysAimed(INIT, steps);
    assert StreamInv(After(INIT, steps).streams[i]);
  }

  // ---- Without that condition there is no bound ----

  predicate Reconciles(steps: seq<Step>) {
    forall k | 0 <= k < |steps| ::
      steps[k].List? || steps[k].Examine? || steps[k].AutoBump? || steps[k].BumpFailed? || steps[k].Reapply?
  }

  /** Stream `o` is still `streaming`, but the plan has moved on to `p`. */
  predicate Orphaned(s: State, o: nat, p: nat) {
    && o < |s.streams| && p < |s.streams| && o != p
    && s.pointer == Some(p)
    && s.streams[o].state == Streaming && s.streams[o].restarts < MAX_CDC_RESTARTS
  }

  function StreamingIds(streams: seq<Stream>): (r: seq<nat>)
    ensures forall k | 0 <= k < |r| :: r[k] < |streams| && streams[r[k]].state == Streaming
    ensures forall i | 0 <= i < |streams| && streams[i].state == Streaming :: i in r
    ensures forall k, l | 0 <= k < l < |r| :: r[k] < r[l]
  {
    if streams == [] then []
    else
      var n := |streams| - 1;
      var r := StreamingIds(streams[..n]);
      if streams[n].state == Streaming then r + [n] else r
  }

  lemma {:induction false} Concatenate(s: State, a: seq<Step>, b: seq<Step>)
    requires IsRun(s, a) && IsRun(After(s, a), b)
    ensures IsRun(s, a + b) && After(s, a + b) == After(After(s, a), b)
    decreases |a|
  {
    if a == [] {
      assert a + b == b;
    } else {
      assert (a + b)[1..] == a[1..] + b;
      Concatenate(Apply(s, a[0]), a[1..], b);
    }
  }

  lemma One(s: State, step: Step)
    requires Enabled(s, step)
    ensures IsRun(s, [step]) && After(s, [step]) == Apply(s, step)
  {
    assert [step][1..] == [];
    assert IsRun(Apply(s, step), []);
  }

  /** Handling the first listed stream when its connector is down. */
  lemma HandleOne(s: State, o: nat, p: nat) returns (steps: seq<Step>)
    requires Orphaned(s, o, p) && s.pass == Ready && s.todo != []
    requires forall k | 0 <= k < |s.todo| :: s.todo[k].id < |s.streams|
    requires forall k | 0 <= k < |s.todo| && s.todo[k].id == o :: s.todo[k].restarts < MAX_CDC_RESTARTS
    ensures IsRun(s, steps) && Reconciles(steps)
    ensures var t := After(s, steps);
            && Orphaned(t, o, p) && t.pass == Ready && t.todo == s.todo[1..] && |t.streams| == |s.streams|
            && t.streams[p].misdirected >= s.streams[p].misdirected + (if s.todo[0].id == o then 1 else 0)
  {
    var a := Examine(false);
    One(s, a);
    var s1 := Apply(s, a);
    steps := [a];
    if s.todo[0].restarts < MAX_CDC_RESTARTS {
      One(s1, AutoBump);
      var s2 := Apply(s1, AutoBump);
      One(s2, Reapply(true));
      Concatenate(s1, [AutoBump], [Reapply(true)]);
      Concatenate(s, [a], [AutoBump] + [Reapply(true)]);
      steps := [a] + ([AutoBump] + [Reapply(true)]);
    }
  }

  lemma {:induction false} HandleAll(s: State, o: nat, p: nat) returns (steps: seq<Step>)
    requires Orphaned(s, o, p) && s.pass == Ready
    requires forall k | 0 <= k < |s.todo| :: s.todo[k].id < |s.streams|
    requires forall k | 0 <= k < |s.todo| && s.todo[k].id == o :: s.todo[k].restarts < MAX_CDC_RESTARTS
    ensures IsRun(s, steps) && Reconciles(steps)
    ensures var t := After(s, steps);
            && Orphaned(t, o, p) && t.pass == Ready && t.todo == []
            && t.streams[p].misdirected >= s.streams[p].misdirected
                                         + (if exists k | 0 <= k < |s.todo| :: s.todo[k].id == o then 1 else 0)
    decreases |s.todo|
  {
    if s.todo == [] {
      steps := [];
    } else {
      var a := HandleOne(s, o, p);
      var t := After(s, a);
      var b := HandleAll(t, o, p);
      Concatenate(s, a, b);
      steps := a + b;
      if k :| 0 <= k < |s.todo| && s.todo[k].id == o {
        if k > 0 { assert t.todo[k - 1].id == o; }
      }
    }
  }

  /** One reconciler pass over an orphan's plan, the connector down throughout. */
  lemma OnePass(s: State, o: nat, p: nat) returns (steps: seq<Step>)
    requires Orphaned(s, o, p) && s.pass == Ready && s.todo == []
    ensures IsRun(s, steps) && Reconciles(steps)
    ensures var t := After(s, steps);
            && Orphaned(t, o, p) && t.pass == Ready && t.todo == []
            && t.streams[p].misdirected > s.streams[p].misdirected
  {
    var ids := StreamingIds(s.streams);
    One(s, List(ids));
    var t := Apply(s, List(ids));
    assert o in ids;
    var k :| 0 <= k < |ids| && ids[k] == o;
    assert t.todo[k].id == o;
    var b := HandleAll(t, o, p);
    Concatenate(s, [List(ids)], b);
    steps := [List(ids)] + b;
  }

  /** Once a plan's old stream is left `streaming`, the reconciler restarts the plan's new stream
      without limit: each pass reads the old row's counter and bumps the new row's. */
  lemma {:induction false} OrphanedRestartsAreUnbounded(s: State, o: nat, p: nat, n: nat) returns (steps: seq<Step>)
    requires Orphaned(s, o, p) && s.pass == Ready && s.todo == []
    ensures IsRun(s, steps) && Reconciles(steps)
    ensures var t := After(s, steps);
            Orphaned(t, o, p) && t.pass == Ready && t.todo == [] && t.streams[p].misdirected >= n
    decreases n
  {
    if n == 0 {
      steps := [];
    } else {
      var a := OrphanedRestartsAreUnbounded(s, o, p, n - 1);
      var b := OnePass(After(s, a), o, p);
      Concatenate(s, a, b);
      steps := a + b;
    }
  }

  // ---- So the orphan is what decides ----

  /** Every automatic restart, for whatever stream it was meant. */
  function Bumps(st: Stream): (n: nat) {
    st.own + st.misdirected
  }

  /** However long the reconciler goes on by itself, no stream has more automatic restarts than `b`. */
  ghost predicate BoundedBy(s: State, b: nat) {
    forall steps: seq<Step>, i: nat | IsRun(s, steps) && Reconciles(steps) && i < |After(s, steps).streams| ::
      Bumps(After(s, steps).streams[i]) <= b
  }

  ghost predicate HasOrphan(s: State) {
    exists o: nat, p: nat :: Orphaned(s, o, p)
  }

  /** Nothing but the stream the plan points at is streaming, listed or being handled with restarts left. */
  ghost predicate Settled(s: State) {
    && (forall o | 0 <= o < |s.streams| && s.streams[o].state == Streaming && s.pointer.Some? && s.pointer != Some(o) ::
          s.streams[o].restarts >= MAX_CDC_RESTARTS)
    && (forall k | 0 <= k < |s.todo| && s.pointer.Some? && s.pointer != Some(s.todo[k].id) ::
          s.todo[k].restarts >= MAX_CDC_RESTARTS)
    && (s.pass.Bumping? ==> s.pointer == Some(s.pass.target) && s.pass.target == s.pass.entry.id)
    && (s.pass.Reapplying? ==> s.pointer == Some(s.pass.target))
  }

  ghost predicate SameMisdirected(s: State, t: State) {
    && |t.streams| == |s.streams|
    && forall i | 0 <= i < |s.streams| :: t.streams[i].misdirected == s.streams[i].misdirected
  }

  lemma StepStaysSettled(s: State, step: Step)
    requires Settled(s) && Enabled(s, step) && Reconciles([step])
    ensures Settled(Apply(s, step)) && SameMisdirected(s, Apply(s, step))
  {
    assert [step][0] == step;
    var t := Apply(s, step);
    if step.Examine? {
      assert forall k | 0 <= k < |t.todo| :: t.todo[k] == s.todo[k + 1];
    }
  }

  lemma {:induction false} RunStaysSettled(s: State, steps: seq<Step>)
    requires Settled(s) && IsRun(s, steps) && Reconciles(steps)
    ensures SameMisdirected(s, After(s, steps))
    decreases |steps|
  {
    if steps != [] {
      assert [steps[0]][0] == steps[0];
      StepStaysSettled(s, steps[0]);
      RunStaysSettled(Apply(s, steps[0]), steps[1..]);
    }
  }

  function AllMisdirected(streams: seq<Stream>): (n: nat) {
    if streams == [] then 0 else AllMisdirected(streams[..|streams| - 1]) + streams[|streams| - 1].misdirected
  }

  lemma {:induction false} OneOfAll(streams: seq<Stream>, i: nat)
    requires i < |streams|
    ensures streams[i].misdirected <= AllMisdirected(streams)
  {
    var n := |streams| - 1;
    if i < n {
      OneOfAll(streams[..n], i);
      assert streams[..n][i] == streams[i];
    }
  }

  lemma BoundedWithoutOrphan(s: State)
    requires Inv(s) && s.pass == Ready && s.todo == [] && !HasOrphan(s)
    ensures BoundedBy(s, MAX_CDC_RESTARTS + AllMisdirected(s.streams))
  {
    assert Settled(s) by {
      forall o | 0 <= o < |s.streams| && s.streams[o].state == Streaming && s.pointer.Some? && s.pointer != Some(o)
        ensures s.streams[o].restarts >= MAX_CDC_RESTARTS
      {
        assert !Orphaned(s, o, s.pointer.value);
      }
    }
    forall steps: seq<Step>, i: nat | IsRun(s, steps) && Reconciles(steps) && i < |After(s, steps).streams|
      ensures Bumps(After(s, steps).streams[i]) <= MAX_CDC_RESTARTS + AllMisdirected(s.streams)
    {
      RunKeepsInv(s, steps);
      RunStaysSettled(s, steps);
      assert StreamInv(After(s, steps).streams[i]);
      OneOfAll(s.streams, i);
    }
  }

  lemma UnboundedWithOrphan(s: State, b: nat)
    requires s.pass == Ready && s.todo == [] && HasOrphan(s)
    ensures !BoundedBy(s, b)
  {
    var o: nat, p: nat :| Orphaned(s, o, p);
    var steps := OrphanedRestartsAreUnbounded(s, o, p, b + 1);
    assert Bumps(After(s, steps).streams[p]) > b;
  }

  /** In every reachable state between two passes: the automatic restarts that the reconciler makes by
      itself from there on are bounded if and only if there is no orphan. */
  lemma BoundedIffNoOrphan(steps: seq<Step>)
    requires IsRun(INIT, steps)
    requires var s := After(INIT, steps); s.pass == Ready && s.todo == []
    ensures var s := After(INIT, steps); (exists b :: BoundedBy(s, b)) <==> !HasOrphan(s)
  {
    var s := After(INIT, steps);
    RunKeepsInv(INIT, steps);
    if HasOrphan(s) {
      forall b: nat ensures !BoundedBy(s, b) { UnboundedWithOrphan(s, b); }
    } else {
      BoundedWithoutOrphan(s);
    }
  }

  /** And that situation arises: loading and starting CDC again leaves the first stream behind. */
  lemma SecondStartOrphansTheFirst() returns (steps: seq<Step>)
    ensures IsRun(INIT, steps)
    ensures var s := After(INIT, steps); Orphaned(s, 0, 1) && s.pass == Ready && s.todo == []
  {
    var a := [Insert, PointAt(0), SetState(0, Streaming)];
    var b := [Insert, PointAt(1)];
    var s1 := Apply(INIT, a[0]);
    var s2 := Apply(s1, a[1]);
    var s3 := Apply(s2, a[2]);
    One(INIT, a[0]);
    One(s1, a[1]);
    One(s2, a[2]);
    Concatenate(INIT, [a[0]], [a[1]]);
    Concatenate(INIT, [a[0]] + [a[1]], [a[2]]);
    var s4 := Apply(s3, b[0]);
    One(s3, b[0]);
    One(s4, b[1]);
    Concatenate(s3, [b[0]], [b[1]]);
    Concatenate(INIT, [a[0]] + [a[1]] + [a[2]], [b[0]] + [b[1]]);
    steps := ([a[0]] + [a[1]] + [a[2]]) + ([b[0]] + [b[1]]);
  }
}
