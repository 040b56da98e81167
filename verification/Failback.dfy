/** The guard on a non-forced promote, and the two-site failback protocol it protects. A promote is
    two events, as in the gateway: the route checks the guard and enqueues a job, and the job
    promotes the image later. */
module Failback {
  import opened Options
  import opened Text
  import opened JournalStatus

  /** `rbd mirror image status`: either field may be missing. */
  datatype MirrorStatus = MirrorStatus(state: Option<string>, description: Option<string>)

  datatype Blocker =
    | DaemonNotReplaying(state: string)
    | PeerNotDemoted(state: string, description: string)
    | ReplayUnconfirmed
    | DemotionNotReplayed(state: string, description: string)

  const NOT_PRIMARY := "remote image is not primary"
  const DEMOTED := "remote image demoted"

  function OrEmpty(s: Option<string>): string {
    match s case Some(v) => v case None => ""
  }

  function PromoteBlocker(status: MirrorStatus, mode: string, peerReplayed: bool): (r: Option<Blocker>) {
    var state := OrEmpty(status.state);
    var description := OrEmpty(status.description);
    if !StartsWith(state, "up+") then Some(DaemonNotReplaying(state))
    else if mode == "journal" then
      if !(Contains(description, NOT_PRIMARY) || Contains(description, DEMOTED)) then
        Some(PeerNotDemoted(state, description))
      else if !peerReplayed then Some(ReplayUnconfirmed)
      else None
    else if !Contains(description, DEMOTED) then Some(DemotionNotReplayed(state, description))
    else None
  }

  /** What a copy of the image has been through, oldest first. */
  datatype Entry = Write(id: nat) | Demotion

  datatype Site = East | West

  function Other(x: Site): Site {
    if x == East then West else East
  }

  /** One site's copy. `promoting`: how many promotes passed the guard and have their job queued; the
      route accepts another while one is queued. `confirmed`: the operator saw the peer report
      `journal_peers_replayed: true` since the peer last demoted. */
  datatype Copy = Copy(primary: bool, log: seq<Entry>, up: bool, promoting: nat, confirmed: bool)

  datatype State = State(mode: string, east: Copy, west: Copy, acked: seq<nat>) {
    function At(x: Site): Copy {
      if x == East then east else west
    }
    function With(x: Site, c: Copy): State {
      if x == East then this.(east := c) else this.(west := c)
    }
  }

  /** `Promote` is an attempt that Ceph accepts. A refused attempt changes nothing: the job is queued
      again, or, its retries used up, gone (`JobLost`). */
  datatype Step =
    | WriteTo(site: Site, id: nat)
    | Replay(site: Site, upTo: nat)
    | Demote(site: Site)
    | Daemon(site: Site, up: bool)
    | Confirm(site: Site, report: Report)
    | Check(site: Site, status: MirrorStatus, peerReplayed: bool)
    | Promote(site: Site)
    | JobLost(site: Site)

  function Writes(log: seq<Entry>): (r: seq<nat>) {
    if log == [] then []
    else
      var last := log[|log| - 1];
      Writes(log[..|log| - 1]) + (if last.Write? then [last.id] else [])
  }

  /** How many entries of `b` the history `a` starts with. */
  function CommonPrefix(a: seq<Entry>, b: seq<Entry>): (n: nat)
    ensures n <= |a| && n <= |b|
    ensures a[..n] == b[..n]
  {
    if a == [] || b == [] || a[0] != b[0] then 0
    else
      var n := CommonPrefix(a[1..], b[1..]);
      PrefixGrows(a, n);
      PrefixGrows(b, n);
      n + 1
  }

  lemma PrefixGrows(s: seq<Entry>, n: nat)
    requires n < |s|
    ensures s[..n + 1] == [s[0]] + s[1..][..n]
  {
  }

  /** What the comments say the local `rbd-mirror` daemon reports. Only a daemon that is up says
      anything: the text left by one that is down is stale. In journal mode neither text says how far
      this copy has replayed. */
  ghost predicate TruthfulStatus(s: State, x: Site, status: MirrorStatus) {
    var peer := s.At(Other(x));
    StartsWith(OrEmpty(status.state), "up+") ==>
      && s.At(x).up
      && (Contains(OrEmpty(status.description), NOT_PRIMARY) ==> !peer.primary)
      && (Contains(OrEmpty(status.description), DEMOTED) ==> !peer.primary)
      && (Contains(OrEmpty(status.description), DEMOTED) && s.mode != "journal" ==> peer.log <= s.At(x).log)
  }

  /** Positions are listed with all their fields; the other site's client is among the peers; and it lists
      the writer's own positions only when it has committed everything the writer wrote. */
  ghost predicate TruthfulReport(report: Report, wrote: nat, applied: nat) {
    report.clients.Some? ==>
      var cs := report.clients.value;
      && AllPresent(cs)
      && forall i: nat | FirstWriter(cs, i) :: PeerListed(cs, i, applied == wrote)
  }

  ghost predicate PeerListed(cs: seq<Client>, i: nat, caughtUp: bool)
    requires i < |cs|
  {
    exists p | 0 <= p < |cs| ::
      && cs[p].id != Some("")
      && (multiset(Listed(cs[p])) == multiset(Listed(cs[i])) ==> caughtUp)
  }

  /** Ceph accepts a non-forced promote when the newest local entry is a demotion. */
  predicate CephAccepts(c: Copy) {
    !c.primary && c.log != [] && c.log[|c.log| - 1] == Demotion
  }

  ghost predicate Enabled(s: State, step: Step) {
    var x := step.site;
    var here, peer := s.At(x), s.At(Other(x));
    match step
    case WriteTo(_, _) => here.primary
    case Replay(_, upTo) => !here.primary && here.up && here.log <= peer.log && |here.log| < upTo <= |peer.log|
    case Demote(_) => here.primary
    case Daemon(_, _) => true
    case Confirm(_, report) =>
      && !peer.primary
      && TruthfulReport(report, |peer.log|, CommonPrefix(here.log, peer.log))
      && PeersReplayed(report) == Some(true)
    case Check(_, status, peerReplayed) =>
      && TruthfulStatus(s, x, status)
      && (peerReplayed ==> here.confirmed)
      && PromoteBlocker(status, s.mode, peerReplayed).None?
    case Promote(_) => here.promoting > 0 && CephAccepts(here)
    case JobLost(_) => here.promoting > 0
  }

  function Apply(s: State, step: Step): (t: State) {
    var x := step.site;
    var here := s.At(x);
    match step
    case WriteTo(_, id) => s.With(x, here.(log := here.log + [Write(id)])).(acked := s.acked + [id])
    case Replay(_, upTo) =>
      var source := s.At(Other(x)).log;
      s.With(x, here.(log := if upTo <= |source| then source[..upTo] else source))
    case Demote(_) =>
      var t := s.With(x, here.(primary := false, log := here.log + [Demotion]));
      t.With(Other(x), t.At(Other(x)).(confirmed := false))
    case Daemon(_, up) => s.With(x, here.(up := up))
    case Confirm(_, _) => s.With(x, here.(confirmed := true))
    case Check(_, _, _) => s.With(x, here.(promoting := here.promoting + 1))
    case Promote(_) => s.With(x, here.(primary := true, promoting := Less(here.promoting)))
    case JobLost(_) => s.With(x, here.(promoting := Less(here.promoting)))
  }

  function Less(n: nat): (r: nat) {
    if n == 0 then 0 else n - 1
  }

  /** East is primary, West mirrors it, and both hold the same (so far empty) history. */
  function Init(mode: string, eastUp: bool, westUp: bool): (s: State) {
    State(mode, Copy(true, [], eastUp, 0, false), Copy(false, [], westUp, 0, false), [])
  }

  ghost predicate IsRun(s: State, steps: seq<Step>)
    decreases |steps|
  {
    steps == [] || (Enabled(s, steps[0]) && IsRun(Apply(s, steps[0]), steps[1..]))
  }

  function After(s: State, steps: seq<Step>): (t: State)
    decreases |steps|
  {
    if steps == [] then s else After(Apply(s, steps[0]), steps[1..])
  }

  /** A guard check made while a promote job of the other site is still queued, a stale one included. */
  predicate Overlaps(s: State, step: Step) {
    step.Check? && s.At(Other(step.site)).promoting > 0
  }

  ghost predicate NeverOverlaps(s: State, steps: seq<Step>)
    decreases |steps|
  {
    steps == [] || (!Overlaps(s, steps[0]) && NeverOverlaps(Apply(s, steps[0]), steps[1..]))
  }

  /** At most one primary, and whichever copy is primary holds exactly the acknowledged writes. */
  predicate Safe(s: State) {
    && !(s.east.primary && s.west.primary)
    && (s.east.primary ==> Writes(s.east.log) == s.acked)
    && (s.west.primary ==> Writes(s.west.log) == s.acked)
  }

  function Longer(a: seq<Entry>, b: seq<Entry>): (r: seq<Entry>) {
    if |a| < |b| then b else a
  }

  /** Copy `x` holds everything: the other history is a prefix of its own. */
  predicate Ahead(s: State, x: Site) {
    s.At(Other(x)).log <= s.At(x).log
  }

  ghost predicate SiteInv(s: State, x: Site) {
    var here, peer := s.At(x), s.At(Other(x));
    && (here.primary ==> !peer.primary && Ahead(s, x))
    && (here.confirmed && !peer.primary ==> Ahead(s, x))
    && (here.promoting > 0 ==> !peer.primary && peer.promoting == 0 && Ahead(s, x))
  }

  ghost predicate Inv(s: State) {
    var newest := Longer(s.east.log, s.west.log);
    && SiteInv(s, East)
    && SiteInv(s, West)
    && (Ahead(s, East) || Ahead(s, West))
    && Writes(newest) == s.acked
    && (!s.east.primary && !s.west.primary ==> newest != [] && newest[|newest| - 1] == Demotion)
  }

  lemma NewestIsAhead(s: State, x: Site)
    requires Ahead(s, x)
    ensures Longer(s.east.log, s.west.log) == s.At(x).log
  {
  }

  lemma AppendToLog(log: seq<Entry>, e: Entry)
    ensures Writes(log + [e]) == Writes(log) + (if e.Write? then [e.id] else [])
  {
    assert (log + [e])[..|log|] == log;
  }

  /** A `true` answer read on the demoted peer means this copy has all of the peer's journal. */
  lemma ConfirmedMeansAhead(s: State, x: Site, report: Report)
    requires Ahead(s, East) || Ahead(s, West)
    requires TruthfulReport(report, |s.At(Other(x)).log|, CommonPrefix(s.At(x).log, s.At(Other(x)).log))
    requires PeersReplayed(report) == Some(true)
    ensures Ahead(s, x)
  {
    var here, peer := s.At(x).log, s.At(Other(x)).log;
    var n := CommonPrefix(here, peer);
    EqualMeansCaughtUp(report, |peer|, n);
    assert peer[..n] == peer && here[..n] == peer;
  }

  lemma EqualMeansCaughtUp(report: Report, wrote: nat, applied: nat)
    requires TruthfulReport(report, wrote, applied) && PeersReplayed(report) == Some(true)
    ensures applied == wrote
  {
    PeersReplayedMeaning(report);
    var cs := report.clients.value;
    var i := FirstLocal(cs).value;
    assert FirstWriter(cs, i);
    RawMeaning(cs, i);
    assert PeerListed(cs, i, applied == wrote);
    var p :| 0 <= p < |cs| && cs[p].id != Some("")
             && (multiset(Listed(cs[p])) == multiset(Listed(cs[i])) ==> applied == wrote);
  }

  /** When the guard lets a promote pass, in the words of the status it reads. */
  lemma PassesIff(status: MirrorStatus, mode: string, peerReplayed: bool)
    ensures PromoteBlocker(status, mode, peerReplayed).None?
       <==> && status.state.Some? && StartsWith(status.state.value, "up+")
            && status.description.Some?
            && var demoted := Contains(status.description.value, "remote image demoted");
            if mode == "journal"
            then peerReplayed && (demoted || Contains(status.description.value, "remote image is not primary"))
            else demoted
  {
  }

  /** And otherwise the first reason that applies is given. */
  lemma BlocksFor(status: MirrorStatus, mode: string, peerReplayed: bool)
    ensures var b := PromoteBlocker(status, mode, peerReplayed);
            var up := status.state.Some? && StartsWith(status.state.value, "up+");
            && (b.Some? && b.value.DaemonNotReplaying? <==> !up)
            && (b == Some(ReplayUnconfirmed) ==> up && mode == "journal" && !peerReplayed)
            && (b.Some? && b.value.PeerNotDemoted? ==> up && mode == "journal")
            && (b.Some? && b.value.DemotionNotReplayed? ==> up && mode != "journal")
  {
  }

  lemma GuardMeansAhead(s: State, step: Step)
    requires Inv(s) && step.Check? && Enabled(s, step)
    ensures Ahead(s, step.site) && !s.At(Other(step.site)).primary
  {
  }

  lemma WriteKeepsInv(s: State, step: Step)
    requires Inv(s) && Enabled(s, step) && (step.WriteTo? || step.Demote?)
    ensures Inv(Apply(s, step))
  {
    var x := step.site;
    var e := if step.WriteTo? then Write(step.id) else Demotion;
    NewestIsAhead(s, x);
    AppendToLog(s.At(x).log, e);
    assert Ahead(Apply(s, step), x);
    NewestIsAhead(Apply(s, step), x);
  }

  lemma ReplayKeepsInv(s: State, step: Step)
    requires Inv(s) && Enabled(s, step) && step.Replay?
    ensures Inv(Apply(s, step))
  {
    var x := step.site;
    assert Ahead(s, Other(x)) && Ahead(Apply(s, step), Other(x));
    NewestIsAhead(s, Other(x));
    NewestIsAhead(Apply(s, step), Other(x));
  }

  lemma ConfirmKeepsInv(s: State, step: Step)
    requires Inv(s) && Enabled(s, step) && step.Confirm?
    ensures Inv(Apply(s, step))
  {
    ConfirmedMeansAhead(s, step.site, step.report);
    ConfirmedKeepsInv(s, step.site);
  }

  lemma ConfirmedKeepsInv(s: State, x: Site)
    requires Inv(s) && Ahead(s, x)
    ensures Inv(s.With(x, s.At(x).(confirmed := true)))
  {
  }

  lemma CheckKeepsInv(s: State, step: Step)
    requires Inv(s) && Enabled(s, step) && step.Check? && !Overlaps(s, step)
    ensures Inv(Apply(s, step))
  {
    GuardMeansAhead(s, step);
  }

  lemma PromoteKeepsInv(s: State, step: Step)
    requires Inv(s) && Enabled(s, step) && step.Promote?
    ensures Inv(Apply(s, step))
  {
  }

  lemma QuietStepKeepsInv(s: State, step: Step)
    requires Inv(s) && Enabled(s, step) && (step.Daemon? || step.JobLost?)
    ensures Inv(Apply(s, step))
  {
  }

  lemma StepKeepsInv(s: State, step: Step)
    requires Inv(s) && Enabled(s, step) && !Overlaps(s, step)
    ensures Inv(Apply(s, step))
  {
    match step
    case WriteTo(_, _) => WriteKeepsInv(s, step);
    case Demote(_) => WriteKeepsInv(s, step);
    case Replay(_, _) => ReplayKeepsInv(s, step);
    case Confirm(_, _) => ConfirmKeepsInv(s, step);
    case Check(_, _, _) => CheckKeepsInv(s, step);
    case Promote(_) => PromoteKeepsInv(s, step);
    case Daemon(_, _) => QuietStepKeepsInv(s, step);
    case JobLost(_) => QuietStepKeepsInv(s, step);
  }

  lemma {:induction false} RunKeepsInv(s: State, steps: seq<Step>)
    requires Inv(s) && IsRun(s, steps) && NeverOverlaps(s, steps)
    ensures Inv(After(s, steps))
    decreases |steps|
  {
    if steps != [] {
      StepKeepsInv(s, steps[0]);
      RunKeepsInv(Apply(s, steps[0]), steps[1..]);
    }
  }

  lemma InvMeansSafe(s: State)
    requires Inv(s)
    ensures Safe(s)
  {
    if s.east.primary { NewestIsAhead(s, East); }
    if s.west.primary { NewestIsAhead(s, West); }
  }

  /** In every run whose guard checks do not overlap, in either mirroring mode: no split brain, and
      the primary's history is exactly the acknowledged writes. */
  lemma NoSplitBrainNoLostWrite(mode: string, eastUp: bool, westUp: bool, steps: seq<Step>)
    requires IsRun(Init(mode, eastUp, westUp), steps)
    requires NeverOverlaps(Init(mode, eastUp, westUp), steps)
    ensures Safe(After(Init(mode, eastUp, westUp), steps))
  {
    RunKeepsInv(Init(mode, eastUp, westUp), steps);
    InvMeansSafe(After(Init(mode, eastUp, westUp), steps));
  }

  /** Passed checks of a site, less its promotes and lost jobs. */
  function Outstanding(steps: seq<Step>, x: Site): (n: int) {
    if steps == [] then 0
    else
      var step := steps[0];
      Outstanding(steps[1..], x)
      + (if step.site != x then 0 else if step.Check? then 1 else if step.Promote? || step.JobLost? then -1 else 0)
  }

  lemma {:induction false} RunCountsJobs(s: State, steps: seq<Step>, x: Site)
    requires IsRun(s, steps)
    ensures After(s, steps).At(x).promoting == s.At(x).promoting + Outstanding(steps, x)
    decreases |steps|
  {
    if steps != [] {
      RunCountsJobs(Apply(s, steps[0]), steps[1..], x);
    }
  }

  /** In every run each passed check queues one job, and a job is used up by one promote or lost. */
  lemma JobsAreCounted(mode: string, eastUp: bool, westUp: bool, steps: seq<Step>, x: Site)
    requires IsRun(Init(mode, eastUp, westUp), steps)
    ensures After(Init(mode, eastUp, westUp), steps).At(x).promoting == Outstanding(steps, x)
  {
    RunCountsJobs(Init(mode, eastUp, westUp), steps, x);
  }

  /** A queued promote, stale or not, of a copy that is not primary yet is one Ceph accepts, and it makes
      a copy the only primary that holds every acknowledged write. Of a copy that is, Ceph refuses it. */
  lemma GuardedPromoteIsClean(mode: string, eastUp: bool, westUp: bool, steps: seq<Step>, x: Site)
    requires IsRun(Init(mode, eastUp, westUp), steps)
    requires NeverOverlaps(Init(mode, eastUp, westUp), steps)
    requires After(Init(mode, eastUp, westUp), steps).At(x).promoting > 0
    ensures var s := After(Init(mode, eastUp, westUp), steps);
            && (Enabled(s, Promote(x)) <==> !s.At(x).primary)
            && Writes(s.At(x).log) == s.acked
            && Apply(s, Promote(x)).At(x).primary
            && !Apply(s, Promote(x)).At(Other(x)).primary
  {
    RunKeepsInv(Init(mode, eastUp, westUp), steps);
    NewestIsAhead(After(Init(mode, eastUp, westUp), steps), x);
  }

  /** The condition is needed wherever it can be broken: whenever a check passes while the other
      site's job is queued, letting both jobs run makes both copies primary. */
  lemma OverlapSplitsTheBrain(mode: string, eastUp: bool, westUp: bool, steps: seq<Step>, step: Step)
    requires IsRun(Init(mode, eastUp, westUp), steps)
    requires NeverOverlaps(Init(mode, eastUp, westUp), steps)
    requires Enabled(After(Init(mode, eastUp, westUp), steps), step)
    requires Overlaps(After(Init(mode, eastUp, westUp), steps), step)
    ensures var s := After(Init(mode, eastUp, westUp), steps);
            var jobs := [step, Promote(Other(step.site)), Promote(step.site)];
            IsRun(s, jobs) && !Safe(After(s, jobs))
  {
    var s := After(Init(mode, eastUp, westUp), steps);
    RunKeepsInv(Init(mode, eastUp, westUp), steps);
    BothAccepted(s, step);
    var x := step.site;
    ThreeSteps(s, step, Promote(Other(x)), Promote(x));
  }

  lemma BothAccepted(s: State, step: Step)
    requires Inv(s) && Enabled(s, step) && Overlaps(s, step)
    ensures var x := step.site;
            var t := Apply(s, step);
            && Enabled(t, Promote(Other(x)))
            && var u := Apply(t, Promote(Other(x)));
            && Enabled(u, Promote(x)) && !Safe(Apply(u, Promote(x)))
  {
    GuardMeansAhead(s, step);
    NewestIsAhead(s, step.site);
    NewestIsAhead(s, Other(step.site));
  }

  lemma ThreeSteps(s: State, a: Step, b: Step, c: Step)
    requires Enabled(s, a) && Enabled(Apply(s, a), b) && Enabled(Apply(Apply(s, a), b), c)
    ensures IsRun(s, [a, b, c]) && After(s, [a, b, c]) == Apply(Apply(Apply(s, a), b), c)
  {
    var t, u := Apply(s, a), Apply(Apply(s, a), b);
    var v := Apply(u, c);
    assert [a, b, c][1..] == [b, c] && [b, c][1..] == [c] && [c][1..] == [];
    assert IsRun(v, []) && IsRun(u, [c]) && IsRun(t, [b, c]);
    assert After(s, [a, b, c]) == After(t, [b, c]) == After(u, [c]) == After(v, []);
  }

  // ---- The overlap can happen ----

  ghost predicate Reached(s: State, steps: seq<Step>, t: State) {
    IsRun(s, steps) && NeverOverlaps(s, steps) && After(s, steps) == t
  }

  /** One more step of a run. */
  lemma {:induction false} Extend(s: State, steps: seq<Step>, t: State, step: Step)
    requires Reached(s, steps, t) && Enabled(t, step) && !Overlaps(t, step)
    ensures Reached(s, steps + [step], Apply(t, step))
    decreases |steps|
  {
    if steps == [] {
      assert steps + [step] == [step] && [step][1..] == [];
      assert IsRun(Apply(s, step), []) && NeverOverlaps(Apply(s, step), []);
    } else {
      assert (steps + [step])[1..] == steps[1..] + [step];
      Extend(Apply(s, steps[0]), steps[1..], t, step);
    }
  }

  const POSITION := RawPosition(Some(0), Some(0), Some(1))
  const LEVEL := Report(Some([Client(Some(""), Some([POSITION])), Client(Some("peer"), Some([POSITION]))]))
  const SEEN_DEMOTED := MirrorStatus(Some("up+unknown"), Some(DEMOTED))

  lemma LevelReport()
    ensures PeersReplayed(LEVEL) == Some(true)
    ensures TruthfulReport(LEVEL, 1, 1)
  {
    var cs := LEVEL.clients.value;
    assert FirstWriter(cs, 0) && cs[1].id != Some("");
    assert Listed(cs[0]) == Listed(cs[1]) == [POSITION];
    RawMeaning(cs, 0);
    assert forall i: nat | FirstWriter(cs, i) :: i == 0;
    assert PeerListed(cs, 0, true);
  }

  lemma DemotedPasses(mode: string)
    ensures PromoteBlocker(SEEN_DEMOTED, mode, true).None?
  {
    assert StartsWith(DEMOTED[0..], DEMOTED);
    assert "up+unknown"[..3] == "up+";
  }

  /** East has demoted, West has replayed the demotion; `waiting` of West's promote jobs are queued. */
  function Level(mode: string, east: bool, west: bool, waiting: nat): State {
    State(mode, Copy(false, [Demotion], true, 0, east), Copy(false, [Demotion], true, waiting, west), [])
  }

  lemma LevelConfirms(mode: string, east: bool, west: bool, waiting: nat, x: Site)
    ensures Enabled(Level(mode, east, west, waiting), Confirm(x, LEVEL))
  {
    var log := [Demotion];
    var n := CommonPrefix(log, log);
    assert n == 1 + CommonPrefix(log[1..], log[1..]);
    LevelReport();
  }

  lemma LevelChecks(mode: string, waiting: nat)
    ensures Enabled(Level(mode, false, true, waiting), Check(West, SEEN_DEMOTED, true))
    ensures Enabled(Level(mode, true, true, waiting), Check(East, SEEN_DEMOTED, true))
  {
    DemotedPasses(mode);
  }

  lemma LevelIsReachable(mode: string) returns (steps: seq<Step>)
    ensures Reached(Init(mode, true, true), steps, Level(mode, false, false, 0))
  {
    var s0 := Init(mode, true, true);
    var s1 := Apply(s0, Demote(East));
    assert s1.east.log == [Demotion] && s1.west.log == [];
    Extend(s0, [], s0, Demote(East));
    Extend(s0, [] + [Demote(East)], s1, Replay(West, 1));
    assert [Demotion][..1] == [Demotion];
    steps := [] + [Demote(East)] + [Replay(West, 1)];
  }

  /** It can be broken in every mode: after a clean demotion, both sites may pass the guard before either
      job runs. */
  lemma OverlapIsReachable(mode: string)
    ensures exists steps, step ::
              && IsRun(Init(mode, true, true), steps)
              && NeverOverlaps(Init(mode, true, true), steps)
              && Enabled(After(Init(mode, true, true), steps), step)
              && Overlaps(After(Init(mode, true, true), steps), step)
  {
    var s0 := Init(mode, true, true);
    var steps := LevelIsReachable(mode);
    LevelConfirms(mode, false, false, 0, West);
    Extend(s0, steps, Level(mode, false, false, 0), Confirm(West, LEVEL));
    steps := steps + [Confirm(West, LEVEL)];
    LevelChecks(mode, 0);
    Extend(s0, steps, Level(mode, false, true, 0), Check(West, SEEN_DEMOTED, true));
    steps := steps + [Check(West, SEEN_DEMOTED, true)];
    LevelConfirms(mode, false, true, 1, East);
    Extend(s0, steps, Level(mode, false, true, 1), Confirm(East, LEVEL));
    steps := steps + [Confirm(East, LEVEL)];
    LevelChecks(mode, 1);
    assert After(s0, steps) == Level(mode, true, true, 1);
    assert Overlaps(After(s0, steps), Check(East, SEEN_DEMOTED, true));
  }
}
