/** The activity feed: three queries, each limited to its own newest rows, merged, sorted and cut. */
module Feed {
  import opened Ordering
  import opened Text

  datatype Kind = JobRow | AuditRow | AlertRow

  /** Jobs and alerts have text ids, audit rows numbers. */
  datatype Id = Name(text: string) | Number(value: nat)

  datatype Row = Row(ts: string, kind: Kind, id: Id)

  /** Newest first. */
  predicate Newer(a: string, b: string) {
    StrLe(b, a)
  }

  predicate RowNewer(a: Row, b: Row) {
    Newer(a.ts, b.ts)
  }

  lemma NewerIsTotalOrder()
    ensures TotalOrder(Newer)
  {
    StrLeIsTotalOrder();
  }

  function StampOf(row: Row): string {
    row.ts
  }

  function Stamps(rows: seq<Row>): (r: seq<string>)
    ensures |r| == |rows|
  {
    seq(|rows|, i requires 0 <= i < |rows| => rows[i].ts)
  }

  function Clamp(limit: int): (r: nat)
    ensures 1 <= r <= 500
    ensures 1 <= limit <= 500 ==> r == limit
    ensures limit < 1 ==> r == 1
    ensures limit > 500 ==> r == 500
  {
    if limit < 1 then 1 else if limit > 500 then 500 else limit
  }

  lemma StampsHead(s: seq<Row>)
    requires s != []
    ensures Stamps(s)[0] == s[0].ts && Stamps(s)[1..] == Stamps(s[1..])
  {
  }

  lemma StampsCons(x: Row, s: seq<Row>)
    ensures Stamps([x] + s) == [x.ts] + Stamps(s)
  {
  }

  lemma {:induction false} StampsOfInsert(x: Row, s: seq<Row>)
    ensures Stamps(Insert(RowNewer, x, s)) == Insert(Newer, x.ts, Stamps(s))
  {
    if s != [] {
      StampsHead(s);
      if RowNewer(x, s[0]) {
        StampsCons(x, s);
      } else {
        StampsOfInsert(x, s[1..]);
        StampsCons(s[0], Insert(RowNewer, x, s[1..]));
      }
    }
  }

  /** Sorting rows by timestamp sorts their timestamps. */
  lemma {:induction false} StampsOfSort(rows: seq<Row>)
    ensures Stamps(Sort(RowNewer, rows)) == Sort(Newer, Stamps(rows))
  {
    if rows != [] {
      StampsHead(rows);
      StampsOfSort(rows[1..]);
      StampsOfInsert(rows[0], Sort(RowNewer, rows[1..]));
    }
  }

  /** Pushes the three query results one row at a time. */
  method Gather(jobs: seq<Row>, audit: seq<Row>, alerts: seq<Row>) returns (out: seq<Row>)
    ensures out == jobs + audit + alerts
  {
    out := [];
    for i := 0 to |jobs|
      invariant out == jobs[..i]
    {
      out := out + [jobs[i]];
    }
    for i := 0 to |audit|
      invariant out == jobs + audit[..i]
    {
      out := out + [audit[i]];
    }
    for i := 0 to |alerts|
      invariant out == jobs + audit + alerts[..i]
    {
      out := out + [alerts[i]];
    }
  }

  lemma StampsOfTake(rows: seq<Row>, k: nat)
    ensures Stamps(Take(rows, k)) == Take(Stamps(rows), k)
    ensures multiset(Take(rows, k)) <= multiset(rows)
  {
    if |rows| > k { assert rows == rows[..k] + rows[k..]; }
  }

  /** Gathers the query results, sorts them in place and truncates. */
  method Merge(limit: int, jobs: seq<Row>, audit: seq<Row>, alerts: seq<Row>) returns (out: seq<Row>)
    ensures Stamps(out) == Take(Sort(Newer, Stamps(jobs + audit + alerts)), Clamp(limit))
    ensures multiset(out) <= multiset(jobs + audit + alerts)
    ensures forall i, j | 0 <= i < j < |out| :: StrLe(out[j].ts, out[i].ts)
  {
    var cut := Clamp(limit);
    out := Gather(jobs, audit, alerts);
    SortedRows(out);
    out := Sort(RowNewer, out);
    StampsOfTake(out, cut);
    if |out| > cut {
      out := out[..cut];
    }
  }

  lemma SortedRows(rows: seq<Row>)
    ensures Stamps(Sort(RowNewer, rows)) == Sort(Newer, Stamps(rows))
    ensures multiset(Sort(RowNewer, rows)) == multiset(rows)
    ensures Sorted(RowNewer, Sort(RowNewer, rows))
  {
    StampsOfSort(rows);
    NewerIsTotalOrder();
    SortSorts(RowNewer, rows);
  }

  /** `top` is a possible answer to `ORDER BY key DESC LIMIT k`: ties may fall either way. */
  ghost predicate Newest(all: seq<string>, k: nat, top: seq<string>) {
    && |top| == (if |all| < k then |all| else k)
    && Sorted(Newer, top)
    && exists rest: seq<string> ::
         && multiset(all) == multiset(top) + multiset(rest)
         && forall i, j | 0 <= i < |top| && 0 <= j < |rest| :: Newer(top[i], rest[j])
  }

  // ---- A list's own newest k are all of it that can matter ----

  lemma {:induction false} InsertSeesOnlyTheTop(x: string, s: seq<string>, k: nat)
    ensures Take(Insert(Newer, x, s), k) == Take(Insert(Newer, x, Take(s, k)), k)
    decreases |s|
  {
    if |s| > k && k > 0 {
      var cut := s[..k];
      assert cut[0] == s[0];
      if Newer(x, s[0]) {
        assert ([x] + s)[..k] == ([x] + cut)[..k];
      } else {
        InsertSeesOnlyTheTop(x, s[1..], k - 1);
        assert cut[1..] == s[1..][..k - 1];
        var a, b := Insert(Newer, x, s[1..]), Insert(Newer, x, cut[1..]);
        assert ([s[0]] + a)[..k] == [s[0]] + a[..k - 1];
        assert ([s[0]] + b)[..k] == [s[0]] + b[..k - 1];
      }
    }
  }

  /** Replacing the last segment of a list by anything with the same newest `k`. */
  lemma {:induction false} LastSegment(r: seq<string>, a: seq<string>, b: seq<string>, k: nat)
    requires Take(Sort(Newer, a), k) == Take(Sort(Newer, b), k)
    ensures Take(Sort(Newer, r + a), k) == Take(Sort(Newer, r + b), k)
  {
    if r == [] {
      assert r + a == a && r + b == b;
    } else {
      assert (r + a)[0] == (r + b)[0] == r[0];
      assert (r + a)[1..] == r[1..] + a && (r + b)[1..] == r[1..] + b;
      LastSegment(r[1..], a, b, k);
      InsertSeesOnlyTheTop(r[0], Sort(Newer, r[1..] + a), k);
      InsertSeesOnlyTheTop(r[0], Sort(Newer, r[1..] + b), k);
    }
  }

  lemma SwapSegments(a: seq<string>, b: seq<string>)
    ensures Sort(Newer, a + b) == Sort(Newer, b + a)
  {
    NewerIsTotalOrder();
    assert multiset(a + b) == multiset(b + a);
    SortedEqualIffSameElements(Newer, a + b, b + a);
  }

  /** Whichever way ties fell, a limited query returns the first `k` of the sorted table. */
  lemma NewestIsSortedPrefix(all: seq<string>, k: nat, top: seq<string>)
    requires Newest(all, k, top)
    ensures Take(Sort(Newer, all), k) == top == Take(Sort(Newer, top), k)
  {
    NewerIsTotalOrder();
    var rest :| multiset(all) == multiset(top) + multiset(rest)
             && forall i, j | 0 <= i < |top| && 0 <= j < |rest| :: Newer(top[i], rest[j]);
    SortSorts(Newer, rest);
    SortSorts(Newer, all);
    SortSorts(Newer, top);
    var tail := Sort(Newer, rest);
    forall i, j | 0 <= i < |top| && 0 <= j < |tail| ensures Newer(top[i], tail[j]) {
      assert tail[j] in multiset(tail);
      assert tail[j] in rest;
    }
    assert Sorted(Newer, top + tail);
    SortedListingIsUnique(Newer, Sort(Newer, all), top + tail);
    SortedListingIsUnique(Newer, Sort(Newer, top), top);
    assert |all| == |top + tail|;
    assert Take(top + tail, k) == top;
  }

  lemma TwoSegments(a: seq<string>, b: seq<string>, a': seq<string>, b': seq<string>, k: nat)
    requires Take(Sort(Newer, a'), k) == Take(Sort(Newer, a), k)
    requires Take(Sort(Newer, b'), k) == Take(Sort(Newer, b), k)
    ensures Take(Sort(Newer, a' + b'), k) == Take(Sort(Newer, a + b), k)
  {
    LastSegment(b', a', a, k);
    SwapSegments(b', a');
    SwapSegments(b', a);
    LastSegment(a, b', b, k);
  }

  /** The feed shows the newest activity overall: its timestamps are the first `limit` of the descending
      sort of every row of all three tables, though each table contributed only its own newest rows. */
  lemma FeedIsTheNewestOverall(limit: int, jobs: seq<string>, audit: seq<string>, alerts: seq<string>,
                               topJobs: seq<string>, topAudit: seq<string>, topAlerts: seq<string>)
    requires Newest(jobs, Clamp(limit), topJobs)
    requires Newest(audit, Clamp(limit), topAudit)
    requires Newest(alerts, Clamp(limit), topAlerts)
    ensures Take(Sort(Newer, topJobs + topAudit + topAlerts), Clamp(limit))
         == Take(Sort(Newer, jobs + audit + alerts), Clamp(limit))
  {
    var k := Clamp(limit);
    NewestIsSortedPrefix(jobs, k, topJobs);
    NewestIsSortedPrefix(audit, k, topAudit);
    NewestIsSortedPrefix(alerts, k, topAlerts);
    TwoSegments(jobs, audit, topJobs, topAudit, k);
    TwoSegments(jobs + audit, alerts, topJobs + topAudit, topAlerts, k);
  }

  /** The whole feed. The tables are ghosts: only what the three queries returned is at hand, the newest
      rows of each by its own column, and yet the result is that of sorting everything. */
  method Activity(limit: int, topJobs: seq<Row>, topAudit: seq<Row>, topAlerts: seq<Row>,
                  ghost jobs: seq<Row>, ghost audit: seq<Row>, ghost auditRest: seq<Row>, ghost alerts: seq<Row>)
    returns (out: seq<Row>)
    requires Newest(Stamps(jobs), Clamp(limit), Stamps(topJobs))
    requires LatestIds(audit, Clamp(limit), topAudit, auditRest) && StampedInOrder(audit)
    requires Newest(Stamps(alerts), Clamp(limit), Stamps(topAlerts))
    ensures Stamps(out) == Take(Sort(Newer, Stamps(jobs + audit + alerts)), Clamp(limit))
    ensures multiset(out) <= multiset(topJobs + topAudit + topAlerts)
    ensures forall i, j | 0 <= i < j < |out| :: StrLe(out[j].ts, out[i].ts)
  {
    out := Merge(limit, topJobs, topAudit, topAlerts);
    LatestIdsAreNewest(audit, Clamp(limit), topAudit, auditRest);
    FeedIsTheNewestOverall(limit, Stamps(jobs), Stamps(audit), Stamps(alerts),
                           Stamps(topJobs), Stamps(topAudit), Stamps(topAlerts));
    StampsJoin3(topJobs, topAudit, topAlerts);
    StampsJoin3(jobs, audit, alerts);
  }

  lemma StampsJoin3(a: seq<Row>, b: seq<Row>, c: seq<Row>)
    ensures Stamps(a + b + c) == Stamps(a) + Stamps(b) + Stamps(c)
  {
    StampsJoin(a + b, c);
    StampsJoin(a, b);
  }

  // ---- The audit query orders by id, not by time ----

  predicate Numbered(rows: seq<Row>) {
    forall i | 0 <= i < |rows| :: rows[i].id.Number?
  }

  /** `ORDER BY id DESC LIMIT k`. */
  ghost predicate LatestIds(all: seq<Row>, k: nat, top: seq<Row>, rest: seq<Row>) {
    && Numbered(all) && Numbered(top) && Numbered(rest)
    && |top| == (if |all| < k then |all| else k)
    && multiset(all) == multiset(top) + multiset(rest)
    && (forall i, j | 0 <= i < j < |top| :: top[i].id.value >= top[j].id.value)
    && (forall i, j | 0 <= i < |top| && 0 <= j < |rest| :: top[i].id.value >= rest[j].id.value)
  }

  /** Rows were stamped in the order their ids were handed out. */
  ghost predicate StampedInOrder(all: seq<Row>) {
    forall a, b | a in all && b in all && a.id.Number? && b.id.Number? && a.id.value >= b.id.value :: Newer(a.ts, b.ts)
  }

  lemma StampsJoin(a: seq<Row>, b: seq<Row>)
    ensures Stamps(a + b) == Stamps(a) + Stamps(b)
  {
  }

  lemma StampsFollowElements(a: seq<Row>, b: seq<Row>)
    requires multiset(a) == multiset(b)
    ensures multiset(Stamps(a)) == multiset(Stamps(b))
  {
    MapKeepsElements(StampOf, a, b);
    assert Stamps(a) == Map(StampOf, a) && Stamps(b) == Map(StampOf, b);
  }

  lemma PartsOfAll(all: seq<Row>, top: seq<Row>, rest: seq<Row>)
    requires multiset(all) == multiset(top) + multiset(rest)
    ensures forall x | x in top || x in rest :: x in all
    ensures multiset(Stamps(all)) == multiset(Stamps(top)) + multiset(Stamps(rest))
  {
    forall x | x in top || x in rest ensures x in all {
      assert x in multiset(top) + multiset(rest);
      assert x in multiset(all);
    }
    assert multiset(top + rest) == multiset(all);
    StampsFollowElements(top + rest, all);
    StampsJoin(top, rest);
  }

  /** When ids and timestamps agree, the latest ids are a newest-first answer like the others. */
  lemma LatestIdsAreNewest(all: seq<Row>, k: nat, top: seq<Row>, rest: seq<Row>)
    requires LatestIds(all, k, top, rest) && StampedInOrder(all)
    ensures Newest(Stamps(all), k, Stamps(top))
  {
    PartsOfAll(all, top, rest);
    var t, r := Stamps(top), Stamps(rest);
    forall i, j | 0 <= i < |t| && 0 <= j < |r| ensures Newer(t[i], r[j]) {
      assert top[i] in all && rest[j] in all;
    }
    forall i, j | 0 <= i < j < |t| ensures Newer(t[i], t[j]) {
      assert top[i] in all && top[j] in all;
    }
  }
}
