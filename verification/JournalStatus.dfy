/** What `rbd journal status` says about the peers' progress. The JSON document is modelled after
    parsing, with every field that may be missing kept optional. */
module JournalStatus {
  import opened Options
  import opened Ordering

  /** One entry of `object_positions`; a field that is absent or not an unsigned number reads as 0. */
  datatype RawPosition = RawPosition(objectNumber: Option<nat>, tagTid: Option<nat>, entryTid: Option<nat>)

  datatype Position = Position(objectNo: nat, tag: nat, entry: nat)

  /** A registered client: `id` is `None` when it is not a string, `positions` when the list is missing. */
  datatype Client = Client(id: Option<string>, positions: Option<seq<RawPosition>>)

  datatype Report = Report(clients: Option<seq<Client>>)

  function OrZero(n: Option<nat>): nat {
    match n case Some(v) => v case None => 0
  }

  function ParseOne(raw: RawPosition): Position {
    Position(OrZero(raw.objectNumber), OrZero(raw.tagTid), OrZero(raw.entryTid))
  }

  function Parse(raw: seq<RawPosition>): (r: seq<Position>) {
    seq(|raw|, i requires 0 <= i < |raw| => ParseOne(raw[i]))
  }

  function Committed(c: Client): (r: seq<Position>) {
    match c.positions case Some(raw) => Parse(raw) case None => []
  }

  /** The derived order on `(u64, u64, u64)`. */
  predicate PositionLe(a: Position, b: Position) {
    if a.objectNo != b.objectNo then a.objectNo < b.objectNo
    else if a.tag != b.tag then a.tag < b.tag
    else a.entry <= b.entry
  }

  function Positions(c: Client): (r: seq<Position>) {
    Sort(PositionLe, Committed(c))
  }

  predicate IsLocal(c: Client) {
    c.id == Some("")
  }

  function FirstLocal(cs: seq<Client>): (r: Option<nat>)
    ensures r.Some? ==> r.value < |cs| && IsLocal(cs[r.value]) && forall i | 0 <= i < r.value :: !IsLocal(cs[i])
    ensures r.None? ==> forall i | 0 <= i < |cs| :: !IsLocal(cs[i])
  {
    if cs == [] then None
    else if IsLocal(cs[0]) then Some(0)
    else match FirstLocal(cs[1..])
         case Some(i) => Some(i + 1)
         case None => None
  }

  function PeersReplayed(report: Report): (r: Option<bool>) {
    match report.clients
    case None => None
    case Some(cs) =>
      match FirstLocal(cs)
      case None => None
      case Some(i) =>
        var local := Positions(cs[i]);
        if local == [] then None
        else if forall j | 0 <= j < |cs| :: IsLocal(cs[j]) then None
        else Some(forall j | 0 <= j < |cs| && !IsLocal(cs[j]) :: Positions(cs[j]) == local)
  }

  /** The answer, said without sorting: every peer has committed exactly what the local client has. */
  ghost predicate AllCaughtUp(cs: seq<Client>, local: Client) {
    forall j | 0 <= j < |cs| && !IsLocal(cs[j]) :: multiset(Committed(cs[j])) == multiset(Committed(local))
  }

  ghost predicate HasPeer(cs: seq<Client>) {
    exists j | 0 <= j < |cs| :: !IsLocal(cs[j])
  }

  lemma PositionLeIsTotalOrder()
    ensures TotalOrder(PositionLe)
  {
  }

  /** The three answers, for every report: no answer exactly when there is no client list, no local
      client, an empty local position or no peer; otherwise whether each peer's positions are the
      local ones as a multiset. */
  lemma PeersReplayedMeaning(report: Report)
    ensures PeersReplayed(report).Some? <==>
              && report.clients.Some?
              && var cs := report.clients.value;
              && FirstLocal(cs).Some?
              && Committed(cs[FirstLocal(cs).value]) != []
              && HasPeer(cs)
    ensures PeersReplayed(report).Some? ==>
              var cs := report.clients.value;
              PeersReplayed(report).value == AllCaughtUp(cs, cs[FirstLocal(cs).value])
  {
    if report.clients.Some? && FirstLocal(report.clients.value).Some? {
      var cs := report.clients.value;
      var local := cs[FirstLocal(cs).value];
      PositionLeIsTotalOrder();
      assert (Positions(local) == []) == (Committed(local) == []);
      assert (forall j | 0 <= j < |cs| :: IsLocal(cs[j])) == !HasPeer(cs);
      forall j | 0 <= j < |cs|
        ensures (Positions(cs[j]) == Positions(local))
             == (multiset(Committed(cs[j])) == multiset(Committed(local)))
      {
        SortedEqualIffSameElements(PositionLe, Committed(cs[j]), Committed(local));
      }
    }
  }

  // ---- In terms of the report's own fields ----

  /** The positions as listed; a missing list is an empty one. */
  function Listed(c: Client): (r: seq<RawPosition>) {
    if c.positions.Some? then c.positions.value else []
  }

  predicate Present(raw: RawPosition) {
    raw.objectNumber.Some? && raw.tagTid.Some? && raw.entryTid.Some?
  }

  ghost predicate AllPresent(cs: seq<Client>) {
    forall i, k | 0 <= i < |cs| && 0 <= k < |Listed(cs[i])| :: Present(Listed(cs[i])[k])
  }

  /** The position as it must have been listed, if all its fields were there. */
  function Unparse(p: Position): RawPosition {
    RawPosition(Some(p.objectNo), Some(p.tag), Some(p.entry))
  }

  lemma ParseForgetsNothing(a: seq<RawPosition>, b: seq<RawPosition>)
    requires forall k | 0 <= k < |a| :: Present(a[k])
    requires forall k | 0 <= k < |b| :: Present(b[k])
    ensures multiset(Parse(a)) == multiset(Parse(b)) <==> multiset(a) == multiset(b)
  {
    assert Parse(a) == Map(ParseOne, a) && Parse(b) == Map(ParseOne, b);
    if multiset(a) == multiset(b) { MapKeepsElements(ParseOne, a, b); }
    if multiset(Parse(a)) == multiset(Parse(b)) {
      MapKeepsElements(Unparse, Parse(a), Parse(b));
      assert Map(Unparse, Parse(a)) == a && Map(Unparse, Parse(b)) == b;
    }
  }

  /** Client `i` is the first whose id is the empty string. */
  ghost predicate FirstWriter(cs: seq<Client>, i: nat) {
    i < |cs| && cs[i].id == Some("") && forall j | 0 <= j < i :: cs[j].id != Some("")
  }

  /** Every client but the writer lists exactly these positions. */
  ghost predicate AllList(cs: seq<Client>, positions: multiset<RawPosition>) {
    forall j | 0 <= j < |cs| && cs[j].id != Some("") :: multiset(Listed(cs[j])) == positions
  }

  /** For every report whose positions have all their fields: the answer is yes exactly when the writer is
      listed with some position, there is a peer, and every peer lists, in some order, exactly the object
      number, tag and entry of each of the writer's positions; and no answer exactly when the writer, its
      positions or the peers are missing. */
  lemma RawMeaning(cs: seq<Client>, i: nat)
    requires AllPresent(cs) && FirstWriter(cs, i)
    ensures var known := Listed(cs[i]) != [] && exists j | 0 <= j < |cs| :: cs[j].id != Some("");
            && (PeersReplayed(Report(Some(cs))).Some? <==> known)
            && (known ==> PeersReplayed(Report(Some(cs))).value == AllList(cs, multiset(Listed(cs[i]))))
  {
    PeersReplayedMeaning(Report(Some(cs)));
    assert FirstLocal(cs) == Some(i);
    assert Committed(cs[i]) == Parse(Listed(cs[i]));
    forall j | 0 <= j < |cs|
      ensures (multiset(Committed(cs[j])) == multiset(Committed(cs[i])))
           == (multiset(Listed(cs[j])) == multiset(Listed(cs[i])))
    {
      assert Committed(cs[j]) == Parse(Listed(cs[j]));
      ParseForgetsNothing(Listed(cs[j]), Listed(cs[i]));
    }
    if exists j | 0 <= j < |cs| :: cs[j].id != Some("") {
      var j :| 0 <= j < |cs| && cs[j].id != Some("");
      assert !IsLocal(cs[j]);
    }
  }

  lemma NoWriterNoAnswer(cs: seq<Client>)
    requires forall i | 0 <= i < |cs| :: cs[i].id != Some("")
    ensures PeersReplayed(Report(Some(cs))).None? && PeersReplayed(Report(None)).None?
  {
    PeersReplayedMeaning(Report(Some(cs)));
    PeersReplayedMeaning(Report(None));
  }

  function FillOne(raw: RawPosition): RawPosition {
    RawPosition(
      if raw.objectNumber.None? then Some(0) else raw.objectNumber,
      if raw.tagTid.None? then Some(0) else raw.tagTid,
      if raw.entryTid.None? then Some(0) else raw.entryTid)
  }

  function Fill(c: Client): Client {
    Client(c.id, Some(Map(FillOne, Listed(c))))
  }

  lemma FillKeepsPositions(c: Client)
    ensures SameContent(Fill(c), c)
    ensures forall k | 0 <= k < |Listed(Fill(c))| :: Present(Listed(Fill(c))[k])
  {
    var listed := Listed(c);
    assert Listed(Fill(c)) == Map(FillOne, listed);
    assert Committed(c) == Parse(listed);
    forall k | 0 <= k < |listed| ensures Map(FillOne, listed)[k] == FillOne(listed[k]) {}
  }

  /** A missing field reads as zero, and a missing list as an empty one: writing them out changes no
      answer. Together with the meaning above this is every report. */
  lemma MissingReadsAsZero(cs: seq<Client>)
    ensures PeersReplayed(Report(Some(Map(Fill, cs)))) == PeersReplayed(Report(Some(cs)))
    ensures AllPresent(Map(Fill, cs))
  {
    var ds := Map(Fill, cs);
    forall i | 0 <= i < |cs| ensures SameContent(ds[i], cs[i]) { FillKeepsPositions(cs[i]); }
    SameAnswer(cs, ds);
  }

  ghost predicate SameContent(d: Client, c: Client) {
    Committed(d) == Committed(c) && IsLocal(d) == IsLocal(c)
  }

  lemma SameAnswer(cs: seq<Client>, ds: seq<Client>)
    requires |cs| == |ds| && forall i | 0 <= i < |cs| :: SameContent(ds[i], cs[i])
    ensures PeersReplayed(Report(Some(ds))) == PeersReplayed(Report(Some(cs)))
  {
    forall i | 0 <= i < |cs| ensures IsLocal(ds[i]) == IsLocal(cs[i]) { assert SameContent(ds[i], cs[i]); }
    SameFirst(cs, ds);
    PeersReplayedMeaning(Report(Some(cs)));
    PeersReplayedMeaning(Report(Some(ds)));
    if HasPeer(cs) {
      var j :| 0 <= j < |cs| && !IsLocal(cs[j]);
      assert !IsLocal(ds[j]);
    }
    if HasPeer(ds) {
      var j :| 0 <= j < |ds| && !IsLocal(ds[j]);
      assert !IsLocal(cs[j]);
    }
  }

  lemma SameFirst(cs: seq<Client>, ds: seq<Client>)
    requires |cs| == |ds| && forall i | 0 <= i < |cs| :: IsLocal(ds[i]) == IsLocal(cs[i])
    ensures FirstLocal(ds) == FirstLocal(cs)
  {
    var a, b := FirstLocal(cs), FirstLocal(ds);
    if a.Some? { assert IsLocal(ds[a.value]); }
    if b.Some? { assert IsLocal(cs[b.value]); }
  }

  /** A client as the report's order-insensitive content. */
  datatype View = View(id: Option<string>, committed: multiset<Position>)

  ghost function ViewOf(c: Client): View {
    View(c.id, multiset(Committed(c)))
  }

  ghost function Views(cs: seq<Client>): seq<View> {
    seq(|cs|, i requires 0 <= i < |cs| => ViewOf(cs[i]))
  }

  /** Ceph registers one local client; it is enough that all local entries agree. */
  ghost predicate LocalsAgree(cs: seq<Client>) {
    forall i, j | 0 <= i < |cs| && 0 <= j < |cs| && IsLocal(cs[i]) && IsLocal(cs[j]) :: ViewOf(cs[i]) == ViewOf(cs[j])
  }

  lemma SameViewElsewhere(cs: seq<Client>, ds: seq<Client>, i: nat) returns (j: nat)
    requires multiset(Views(cs)) == multiset(Views(ds))
    requires i < |cs|
    ensures j < |ds| && ViewOf(ds[j]) == ViewOf(cs[i])
  {
    assert Views(cs)[i] in multiset(Views(cs));
    assert Views(cs)[i] in Views(ds);
    j :| 0 <= j < |Views(ds)| && Views(ds)[j] == Views(cs)[i];
  }

  lemma ReorderedOneWay(cs: seq<Client>, ds: seq<Client>)
    requires multiset(Views(cs)) == multiset(Views(ds))
    requires LocalsAgree(cs)
    requires PeersReplayed(Report(Some(cs))).Some?
    ensures PeersReplayed(Report(Some(ds))).Some?
    ensures PeersReplayed(Report(Some(cs))) == Some(true) ==> PeersReplayed(Report(Some(ds))) == Some(true)
  {
    PeersReplayedMeaning(Report(Some(cs)));
    PeersReplayedMeaning(Report(Some(ds)));
    var i := FirstLocal(cs).value;
    var peer :| 0 <= peer < |cs| && !IsLocal(cs[peer]);
    var i' := SameViewElsewhere(cs, ds, i);
    var peer' := SameViewElsewhere(cs, ds, peer);
    assert IsLocal(ds[i']) && !IsLocal(ds[peer']);
    var k := FirstLocal(ds).value;
    var k' := SameViewElsewhere(ds, cs, k);
    assert ViewOf(cs[k']) == ViewOf(cs[i]);
    assert multiset(Committed(ds[k])) == multiset(Committed(cs[i]));
    assert |multiset(Committed(ds[k]))| == |Committed(ds[k])|;
    assert |multiset(Committed(cs[i]))| == |Committed(cs[i])|;
    if AllCaughtUp(cs, cs[i]) {
      forall j | 0 <= j < |ds| && !IsLocal(ds[j])
        ensures multiset(Committed(ds[j])) == multiset(Committed(ds[k]))
      {
        var j' := SameViewElsewhere(ds, cs, j);
        assert !IsLocal(cs[j']);
      }
    }
  }

  lemma LocalsStillAgree(cs: seq<Client>, ds: seq<Client>)
    requires multiset(Views(cs)) == multiset(Views(ds)) && LocalsAgree(cs)
    ensures LocalsAgree(ds)
  {
    forall i, j | 0 <= i < |ds| && 0 <= j < |ds| && IsLocal(ds[i]) && IsLocal(ds[j])
      ensures ViewOf(ds[i]) == ViewOf(ds[j])
    {
      var i' := SameViewElsewhere(ds, cs, i);
      var j' := SameViewElsewhere(ds, cs, j);
    }
  }

  /** The answer does not depend on the order in which Ceph lists the clients or any client's positions. */
  lemma ReorderingKeepsTheAnswer(cs: seq<Client>, ds: seq<Client>)
    requires multiset(Views(cs)) == multiset(Views(ds))
    requires LocalsAgree(cs)
    ensures PeersReplayed(Report(Some(cs))) == PeersReplayed(Report(Some(ds)))
  {
    LocalsStillAgree(cs, ds);
    if PeersReplayed(Report(Some(cs))).Some? { ReorderedOneWay(cs, ds); }
    if PeersReplayed(Report(Some(ds))).Some? { ReorderedOneWay(ds, cs); }
  }
}
