/** Self-state backups: keys that embed a zero-padded epoch, and the pruning that keeps the last few. */
module Backup {
  import opened Numbers
  import opened Ordering
  import opened Text

  datatype Ext = Db | Dump

  function ExtText(e: Ext): string {
    if e == Db then ".db" else ".dump"
  }

  /** `{prefix}/atlas-state-{ts:020}.{ext}`. */
  function BackupKey(prefix: string, ts: nat, e: Ext): (r: string) {
    (prefix + "/atlas-state-") + (Pad(ts, 20) + ExtText(e))
  }

  lemma TwentyDigits()
    ensures U64_MAX < Power10(20)
  {
    assert Power10(5) == 100000;
    Power10Sum(5, 5);
    Power10Sum(10, 10);
  }

  lemma {:induction false} Power10Sum(a: nat, b: nat)
    ensures Power10(a + b) == Power10(a) * Power10(b)
  {
    if b > 0 { Power10Sum(a, b - 1); }
  }

  /** For every `u64` epoch, key order is time order; at the same second `.db` comes before `.dump`. */
  lemma KeyOrderIsTimeOrder(prefix: string, t: nat, e: Ext, u: nat, f: Ext)
    requires t <= U64_MAX && u <= U64_MAX
    ensures StrLe(BackupKey(prefix, t, e), BackupKey(prefix, u, f)) <==> t < u || (t == u && (e == Db || f == Dump))
    ensures BackupKey(prefix, t, e) == BackupKey(prefix, u, f) <==> t == u && e == f
  {
    TwentyDigits();
    PadOrder(t, u, 20);
    var head := prefix + "/atlas-state-";
    StrLeByField(head, Pad(t, 20) + ExtText(e), head, Pad(u, 20) + ExtText(f));
    StrLeByField(Pad(t, 20), ExtText(e), Pad(u, 20), ExtText(f));
    ExtOrder(e, f);
    assert BackupKey(prefix, t, e)[|head|..] == Pad(t, 20) + ExtText(e);
    assert BackupKey(prefix, u, f)[|head|..] == Pad(u, 20) + ExtText(f);
    assert (Pad(t, 20) + ExtText(e))[..20] == Pad(t, 20) && (Pad(u, 20) + ExtText(f))[..20] == Pad(u, 20);
    assert (Pad(t, 20) + ExtText(e))[20..] == ExtText(e) && (Pad(u, 20) + ExtText(f))[20..] == ExtText(f);
  }

  lemma ExtOrder(e: Ext, f: Ext)
    ensures StrLe(ExtText(e), ExtText(f)) <==> e == Db || f == Dump
    ensures ExtText(e) == ExtText(f) <==> e == f
  {
    var db, dump := ".db", ".dump";
    assert db[1..] == "db" && dump[1..] == "dump" && "db"[1..] == "b" && "dump"[1..] == "ump";
    StrLeTotal(db, db);
    StrLeTotal(dump, dump);
  }

  /** The bucket's keys after one pass. `listed` is what the store listed under the prefix, in any order;
      `refused` are the deletes it turned down, which the pass ignores. */
  method Prune(keys: set<string>, listed: seq<string>, keep: nat, refused: set<string>) returns (left: set<string>)
    ensures left == keys - (Doomed(listed, keep) - refused)
  {
    var objs := Sort(StrLe, listed);
    left := keys;
    if |objs| > keep {
      var n := |objs| - keep;
      for i := 0 to n
        invariant left == keys - (Members(objs[..i]) - refused)
      {
        assert objs[..i + 1] == objs[..i] + [objs[i]];
        if objs[i] !in refused {
          left := left - {objs[i]};
        }
      }
    }
  }

  function Members(s: seq<string>): (r: set<string>) {
    set x | x in s
  }

  /** What a pass tries to delete: all but the last `keep` in byte order. */
  function Doomed(listed: seq<string>, keep: nat): (r: set<string>) {
    if |listed| > keep then Members(Sort(StrLe, listed)[..|listed| - keep]) else {}
  }

  predicate Distinct(s: seq<string>) {
    forall i, j | 0 <= i < j < |s| :: s[i] != s[j]
  }

  lemma {:induction false} DistinctSize(s: seq<string>)
    requires Distinct(s)
    ensures |Members(s)| == |s|
  {
    if s != [] {
      var n := |s| - 1;
      DistinctSize(s[..n]);
      assert s == s[..n] + [s[n]];
      assert Members(s) == Members(s[..n]) + {s[n]};
    }
  }

  /** The keys above `key` in byte order. */
  function Above(listed: seq<string>, key: string): (r: set<string>) {
    set x | x in listed && x != key && StrLe(key, x)
  }

  lemma SortedDistinct(listed: seq<string>)
    requires Distinct(listed)
    ensures Distinct(Sort(StrLe, listed)) && Members(Sort(StrLe, listed)) == Members(listed)
    ensures Sorted(StrLe, Sort(StrLe, listed))
  {
    StrLeIsTotalOrder();
    SortSorts(StrLe, listed);
    var objs := Sort(StrLe, listed);
    forall x ensures x in objs <==> x in listed {
      assert x in multiset(objs) <==> x in multiset(listed);
    }
    forall i, j | 0 <= i < j < |objs| ensures objs[i] != objs[j] {
      if objs[i] == objs[j] {
        TwiceInSeq(objs, i, j);
        OnceInSeq(listed, objs[i]);
        assert false;
      }
    }
  }

  lemma TwiceInSeq(s: seq<string>, i: nat, j: nat)
    requires i < j < |s| && s[i] == s[j]
    ensures multiset(s)[s[i]] >= 2
  {
    assert s == s[..i] + [s[i]] + s[i + 1..j] + [s[j]] + s[j + 1..];
  }

  lemma {:induction false} OnceInSeq(s: seq<string>, x: string)
    requires Distinct(s)
    ensures multiset(s)[x] <= 1
  {
    if s != [] {
      var n := |s| - 1;
      OnceInSeq(s[..n], x);
      assert s == s[..n] + [s[n]];
      if s[n] == x {
        assert x !in s[..n];
        assert x !in multiset(s[..n]);
      }
    }
  }

  lemma AboveIsLater(listed: seq<string>, i: nat)
    requires Distinct(listed) && i < |Sort(StrLe, listed)|
    ensures Above(listed, Sort(StrLe, listed)[i]) == Members(Sort(StrLe, listed)[i + 1..])
  {
    SortedDistinct(listed);
    StrLeIsTotalOrder();
    var objs := Sort(StrLe, listed);
    var later := objs[i + 1..];
    forall x ensures x in Above(listed, objs[i]) <==> x in Members(later) {
      if x in Above(listed, objs[i]) {
        assert x in Members(objs);
        var j :| 0 <= j < |objs| && objs[j] == x;
        assert j > i;
        assert later[j - i - 1] == x;
      }
      if x in later {
        var j :| 0 <= j < |later| && later[j] == x;
        assert objs[i + 1 + j] == x && StrLe(objs[i], objs[i + 1 + j]);
        assert x in Members(listed);
      }
    }
  }

  /** A listed key survives a pass exactly when fewer than `keep` listed keys are above it, whatever
      those keys are: foreign objects under the prefix count too. */
  lemma SurvivesIffFewAbove(listed: seq<string>, keep: nat, key: string)
    requires Distinct(listed) && key in listed
    ensures key !in Doomed(listed, keep) <==> |Above(listed, key)| < keep
  {
    SortedDistinct(listed);
    var objs := Sort(StrLe, listed);
    assert key in Members(objs);
    var i :| 0 <= i < |objs| && objs[i] == key;
    AboveIsLater(listed, i);
    DistinctSize(objs[i + 1..]);
    if |listed| > keep {
      var n := |listed| - keep;
      if i < n { assert objs[..n][i] == key; }
      if key in objs[..n] {
        var j :| 0 <= j < n && objs[..n][j] == key;
        assert objs[j] == objs[i];
      }
    }
  }

  /** A pass leaves exactly `min(n, keep)` of the listed keys, and nothing it deletes is above anything
      it keeps. */
  lemma KeepsTheLast(listed: seq<string>, keep: nat)
    requires Distinct(listed)
    ensures |Members(listed) - Doomed(listed, keep)| == if |listed| < keep then |listed| else keep
    ensures forall d, k | d in Doomed(listed, keep) && k in Members(listed) - Doomed(listed, keep) :: StrLe(d, k)
  {
    KeptMembers(listed, keep);
    DistinctSize(Kept(listed, keep));
    forall d, k | d in Doomed(listed, keep) && k in Members(listed) - Doomed(listed, keep) ensures StrLe(d, k) {
      DoomedBelowKept(listed, keep, d, k);
    }
  }

  /** What a pass does not try to delete. */
  function Kept(listed: seq<string>, keep: nat): (r: seq<string>) {
    if |listed| > keep then Sort(StrLe, listed)[|listed| - keep..] else listed
  }

  lemma KeptMembers(listed: seq<string>, keep: nat)
    requires Distinct(listed)
    ensures Members(listed) - Doomed(listed, keep) == Members(Kept(listed, keep))
    ensures Distinct(Kept(listed, keep))
  {
    if |listed| > keep {
      SortedDistinct(listed);
      MembersSplit(Sort(StrLe, listed), |listed| - keep);
    }
  }

  lemma DoomedBelowKept(listed: seq<string>, keep: nat, d: string, k: string)
    requires Distinct(listed) && d in Doomed(listed, keep) && k in Members(listed) - Doomed(listed, keep)
    ensures StrLe(d, k)
  {
    KeptMembers(listed, keep);
    SortedDistinct(listed);
    SplitInOrder(Sort(StrLe, listed), |listed| - keep, d, k);
  }

  lemma MembersSplit(s: seq<string>, n: nat)
    requires Distinct(s) && n <= |s|
    ensures Members(s) - Members(s[..n]) == Members(s[n..])
  {
    assert s == s[..n] + s[n..];
    forall x | x in s[..n] ensures x !in s[n..] {
      var i :| 0 <= i < n && s[i] == x;
      assert forall j | 0 <= j < |s[n..]| :: s[n..][j] == s[n + j];
    }
  }

  lemma SplitInOrder(s: seq<string>, n: nat, d: string, k: string)
    requires Sorted(StrLe, s) && n <= |s| && d in s[..n] && k in s[n..]
    ensures StrLe(d, k)
  {
    var i :| 0 <= i < n && s[..n][i] == d;
    var j :| 0 <= j < |s| - n && s[n..][j] == k;
    assert s[i] == d && s[n + j] == k;
  }

  /** One foreign object that sorts above them takes the place of a backup: with `keep` at one, even
      the only backup there is goes. */
  lemma ForeignKeyEvicts(prefix: string, ts: nat, e: Ext)
    ensures var listed := [BackupKey(prefix, ts, e), prefix + "/z"];
            Distinct(listed) && BackupKey(prefix, ts, e) in Doomed(listed, 1)
  {
    var key, foreign := BackupKey(prefix, ts, e), prefix + "/z";
    ForeignIsAbove(prefix, Pad(ts, 20) + ExtText(e));
    var listed := [key, foreign];
    assert foreign in Above(listed, key);
    SurvivesIffFewAbove(listed, 1, key);
  }

  lemma ForeignIsAbove(prefix: string, rest: string)
    ensures var key := (prefix + "/atlas-state-") + rest;
            key != prefix + "/z" && StrLe(key, prefix + "/z")
  {
    var head, tail := prefix + "/", "atlas-state-" + rest;
    KeyParts(prefix, rest);
    assert prefix + "/z" == head + "z";
    StrLeByField(head, tail, head, "z");
    assert tail[0] == 'a';
    assert (head + tail)[|head|] == 'a' && (head + "z")[|head|] == 'z';
  }

  lemma KeyParts(prefix: string, rest: string)
    ensures (prefix + "/atlas-state-") + rest == (prefix + "/") + ("atlas-state-" + rest)
  {
    assert "/atlas-state-" == "/" + "atlas-state-";
  }

  datatype Entry = Entry(ts: nat, ext: Ext)

  /** The listing holds only Atlas's own keys: `entries[i]` is what `listed[i]` names. */
  ghost predicate OwnKeys(prefix: string, listed: seq<string>, entries: seq<Entry>) {
    && |listed| == |entries|
    && forall i | 0 <= i < |listed| ::
         entries[i].ts <= U64_MAX && listed[i] == BackupKey(prefix, entries[i].ts, entries[i].ext)
  }

  /** Over its own keys a pass deletes by age: no deleted backup is newer than a kept one. */
  lemma DeletesTheOldest(prefix: string, listed: seq<string>, entries: seq<Entry>, keep: nat, i: nat, j: nat)
    requires Distinct(listed) && OwnKeys(prefix, listed, entries)
    requires i < |listed| && j < |listed|
    requires listed[i] in Doomed(listed, keep) && listed[j] !in Doomed(listed, keep)
    ensures entries[i].ts <= entries[j].ts
  {
    KeepsTheLast(listed, keep);
    KeyOrderIsTimeOrder(prefix, entries[i].ts, entries[i].ext, entries[j].ts, entries[j].ext);
  }

  /** The backup just uploaded survives its own pass when it is the newest and at least one is kept. */
  lemma NewestSurvives(prefix: string, listed: seq<string>, entries: seq<Entry>, keep: nat, i: nat)
    requires Distinct(listed) && OwnKeys(prefix, listed, entries) && keep >= 1 && i < |listed|
    requires forall j | 0 <= j < |listed| && j != i :: entries[j].ts < entries[i].ts
    ensures listed[i] !in Doomed(listed, keep)
  {
    forall x ensures x !in Above(listed, listed[i]) {
      if x in listed && x != listed[i] {
        var j :| 0 <= j < |listed| && listed[j] == x;
        KeyOrderIsTimeOrder(prefix, entries[i].ts, entries[i].ext, entries[j].ts, entries[j].ext);
      }
    }
    assert Above(listed, listed[i]) == {};
    SurvivesIffFewAbove(listed, keep, listed[i]);
  }
}
