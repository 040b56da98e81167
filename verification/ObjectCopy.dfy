/** Planning, running and verifying an object migration. */
module ObjectCopy {
  import opened Options

  datatype Object = Object(key: string, size: nat)

  datatype Mode = Full | Incremental

  /** A listing as a map; a key listed twice keeps its last size. */
  function ToMap(listing: seq<Object>): (r: map<string, nat>) {
    if listing == [] then map[]
    else
      var last := listing[|listing| - 1];
      ToMap(listing[..|listing| - 1])[last.key := last.size]
  }

  /** The last entry for a key is the one that counts, and only listed keys are there. */
  lemma {:induction false} LastEntryCounts(listing: seq<Object>, key: string)
    ensures key in ToMap(listing) <==> exists i :: LastAt(listing, key, i)
    ensures forall i | LastAt(listing, key, i) :: ToMap(listing)[key] == listing[i].size
  {
    if listing != [] {
      var n := |listing| - 1;
      LastEntryCounts(listing[..n], key);
      if listing[n].key == key {
        assert LastAt(listing, key, n);
      } else {
        forall i ensures LastAt(listing[..n], key, i) <==> LastAt(listing, key, i) {}
      }
    }
  }

  /** Entry `i` is the last for this key. */
  predicate LastAt(listing: seq<Object>, key: string, i: int) {
    0 <= i < |listing| && listing[i].key == key && forall k | i < k < |listing| :: listing[k].key != key
  }

  predicate UpToDate(dest: map<string, nat>, o: Object) {
    o.key in dest && dest[o.key] == o.size
  }

  predicate Wanted(dest: map<string, nat>, mode: Mode, o: Object) {
    mode == Full || !UpToDate(dest, o)
  }

  /** The copy plan. */
  function Diff(source: seq<Object>, dest: map<string, nat>, mode: Mode): (r: seq<Object>) {
    if source == [] then []
    else
      var n := |source| - 1;
      var before := Diff(source[..n], dest, mode);
      if Wanted(dest, mode, source[n]) then before + [source[n]] else before
  }

  /** `at` are positions in the source: increasing, and exactly those of the wanted objects. */
  ghost predicate Selects(source: seq<Object>, dest: map<string, nat>, mode: Mode, at: seq<nat>) {
    && (forall k | 0 <= k < |at| :: at[k] < |source|)
    && (forall k, l | 0 <= k < l < |at| :: at[k] < at[l])
    && (forall i | 0 <= i < |source| :: i in at <==> Wanted(dest, mode, source[i]))
  }

  /** `plan` is what the source lists at these positions. */
  ghost predicate ListedAt(plan: seq<Object>, source: seq<Object>, at: seq<nat>) {
    |plan| == |at| && forall k | 0 <= k < |at| :: at[k] < |source| && plan[k] == source[at[k]]
  }

  lemma OneMoreSelected(source: seq<Object>, dest: map<string, nat>, mode: Mode, before: seq<nat>)
    requires source != [] && Selects(source[..|source| - 1], dest, mode, before)
    ensures var n := |source| - 1;
            Selects(source, dest, mode, if Wanted(dest, mode, source[n]) then before + [n] else before)
  {
    var n := |source| - 1;
    var shorter := source[..n];
    var at := if Wanted(dest, mode, source[n]) then before + [n] else before;
    forall i | 0 <= i < |source| ensures i in at <==> Wanted(dest, mode, source[i]) {
      if i < n { assert shorter[i] == source[i]; }
    }
  }

  lemma OneMoreListed(plan: seq<Object>, source: seq<Object>, before: seq<nat>)
    requires source != [] && ListedAt(plan, source[..|source| - 1], before)
    ensures var n := |source| - 1; ListedAt(plan, source, before) && ListedAt(plan + [source[n]], source, before + [n])
  {
  }

  /** The plan is the wanted objects of the listing, each as often as it is listed and in its order. */
  lemma {:induction false} DiffIsTheWantedSubsequence(source: seq<Object>, dest: map<string, nat>, mode: Mode)
    returns (at: seq<nat>)
    ensures Selects(source, dest, mode, at) && ListedAt(Diff(source, dest, mode), source, at)
    decreases |source|
  {
    at := [];
    if source != [] {
      var n := |source| - 1;
      at := DiffIsTheWantedSubsequence(source[..n], dest, mode);
      OneMoreSelected(source, dest, mode, at);
      OneMoreListed(Diff(source[..n], dest, mode), source, at);
      if Wanted(dest, mode, source[n]) { at := at + [n]; }
    }
  }

  lemma DiffMembers(source: seq<Object>, dest: map<string, nat>, mode: Mode, o: Object)
    ensures o in Diff(source, dest, mode) <==> o in source && Wanted(dest, mode, o)
  {
    var at := DiffIsTheWantedSubsequence(source, dest, mode);
    var plan := Diff(source, dest, mode);
    if o in plan {
      var k :| 0 <= k < |plan| && plan[k] == o;
      assert at[k] in at;
    }
    if o in source && Wanted(dest, mode, o) {
      var i :| 0 <= i < |source| && source[i] == o;
      assert i in at;
      var k :| 0 <= k < |at| && at[k] == i;
      assert plan[k] == o;
    }
  }

  /** In full mode everything is planned, as listed; in incremental mode exactly what the destination does
      not have, or has at another size. */
  lemma {:induction false} FullPlansEverything(source: seq<Object>, dest: map<string, nat>)
    ensures Diff(source, dest, Full) == source
  {
    if source != [] {
      var n := |source| - 1;
      FullPlansEverything(source[..n], dest);
      assert source == source[..n] + [source[n]];
    }
  }

  lemma IncrementalPlansTheRest(source: seq<Object>, dest: map<string, nat>, o: Object)
    ensures o in Diff(source, dest, Incremental) <==> o in source && (o.key !in dest || dest[o.key] != o.size)
  {
    DiffMembers(source, dest, Incremental, o);
  }

  lemma NothingWanted(source: seq<Object>, dest: map<string, nat>)
    ensures Diff(source, dest, Incremental) == [] <==> forall o | o in source :: UpToDate(dest, o)
  {
    var r := Diff(source, dest, Incremental);
    forall o ensures o in r <==> o in source && !UpToDate(dest, o) { DiffMembers(source, dest, Incremental, o); }
    if r != [] { assert r[0] in r; }
  }

  datatype VerifyError = ListFailed | Missing(key: string) | SizeMismatch(key: string, expected: nat, got: nat)

  /** `e` is what is wrong with the first planned object that is not there at its size. */
  predicate FirstWrong(plan: seq<Object>, dest: map<string, nat>, e: VerifyError) {
    exists i | 0 <= i < |plan| ::
      && (forall j | 0 <= j < i :: UpToDate(dest, plan[j]))
      && !UpToDate(dest, plan[i])
      && e == (if plan[i].key in dest then SizeMismatch(plan[i].key, plan[i].size, dest[plan[i].key])
               else Missing(plan[i].key))
  }

  /** Passes exactly when the destination could be listed and has every planned object at its size;
      otherwise reports the first that it has not. `listing` is `None` when listing failed. */
  method Verify(plan: seq<Object>, listing: Option<seq<Object>>) returns (r: Option<VerifyError>)
    ensures r.None? <==> listing.Some? && Verified(plan, ToMap(listing.value))
    ensures r.Some? ==> if listing.None? then r.value == ListFailed else FirstWrong(plan, ToMap(listing.value), r.value)
  {
    if listing.None? {
      return Some(ListFailed);
    }
    var dest := ToMap(listing.value);
    for i := 0 to |plan|
      invariant forall j | 0 <= j < i :: UpToDate(dest, plan[j])
    {
      if plan[i].key !in dest {
        return Some(Missing(plan[i].key));
      }
      if dest[plan[i].key] != plan[i].size {
        return Some(SizeMismatch(plan[i].key, plan[i].size, dest[plan[i].key]));
      }
    }
    r := None;
  }

  predicate Verified(plan: seq<Object>, dest: map<string, nat>) {
    forall i | 0 <= i < |plan| :: UpToDate(dest, plan[i])
  }

  /** A full copy verifies against a destination exactly when an incremental copy would have nothing to
      do there. */
  lemma FullVerifiedMeansNothingToDo(source: seq<Object>, before: map<string, nat>, after: map<string, nat>)
    ensures Verified(Diff(source, before, Full), after) <==> Diff(source, after, Incremental) == []
  {
    var plan := Diff(source, before, Full);
    NothingWanted(source, after);
    forall o ensures o in plan <==> o in source { DiffMembers(source, before, Full, o); }
    forall i | 0 <= i < |plan| ensures plan[i] in source { assert plan[i] in plan; }
  }

  predicate DistinctKeys(source: seq<Object>) {
    forall i, j | 0 <= i < j < |source| :: source[i].key != source[j].key
  }

  predicate Plans(plan: seq<Object>, key: string) {
    exists i | 0 <= i < |plan| :: plan[i].key == key
  }

  /** The destination changed only at planned keys. */
  ghost predicate OthersUntouched(plan: seq<Object>, before: map<string, nat>, after: map<string, nat>) {
    forall key | key in before && !Plans(plan, key) :: key in after && after[key] == before[key]
  }

  lemma SameKeySameObject(source: seq<Object>, a: Object, b: Object)
    requires DistinctKeys(source) && a in source && b in source && a.key == b.key
    ensures a == b
  {
  }

  /** The same for an incremental copy that changed nothing outside its plan. */
  lemma IncrementalVerifiedMeansNothingToDo(source: seq<Object>, before: map<string, nat>, after: map<string, nat>)
    requires DistinctKeys(source)
    requires OthersUntouched(Diff(source, before, Incremental), before, after)
    ensures Verified(Diff(source, before, Incremental), after) <==> Diff(source, after, Incremental) == []
  {
    var plan := Diff(source, before, Incremental);
    NothingWanted(source, after);
    forall o ensures o in plan <==> o in source && !UpToDate(before, o) { DiffMembers(source, before, Incremental, o); }
    forall i | 0 <= i < |plan| ensures plan[i] in source { assert plan[i] in plan; }
    if Verified(plan, after) {
      forall o | o in source ensures UpToDate(after, o) {
        if Plans(plan, o.key) {
          var i :| 0 <= i < |plan| && plan[i].key == o.key;
          SameKeySameObject(source, plan[i], o);
        } else {
          NotPlanned(plan, o);
        }
      }
    }
  }

  lemma NotPlanned(plan: seq<Object>, o: Object)
    requires !Plans(plan, o.key)
    ensures o !in plan
  {
  }

  // ---- The copy run ----

  /** One finished copy, in the order the concurrent copies happen to complete. */
  datatype Copy = Copied(key: string, bytes: nat, sha: string) | CopyFailed(key: string)

  /** `wrong` is `verify_error`; `verified` is its absence. */
  datatype Report = Report(
    objects: nat, bytes: nat, checksums: seq<(string, string)>, verified: bool, wrong: Option<VerifyError>)

  datatype Progress = Progress(objectsTotal: nat, objectsDone: nat, bytesTotal: nat, bytesDone: nat)

  function Sizes(plan: seq<Object>): (r: nat) {
    if plan == [] then 0 else Sizes(plan[..|plan| - 1]) + plan[|plan| - 1].size
  }

  lemma {:induction false} SizesAddUp(plan: seq<Object>, o: Object)
    ensures Sizes([]) == 0 && Sizes(plan + [o]) == Sizes(plan) + o.size
  {
    assert (plan + [o])[..|plan|] == plan;
  }

  function PlanKeys(plan: seq<Object>): (r: seq<string>)
    ensures |r| == |plan|
  {
    seq(|plan|, i requires 0 <= i < |plan| => plan[i].key)
  }

  function CopyKeys(copies: seq<Copy>): (r: seq<string>)
    ensures |r| == |copies|
  {
    seq(|copies|, i requires 0 <= i < |copies| => copies[i].key)
  }

  function Bytes(copies: seq<Copy>): (r: nat) {
    if copies == [] then 0
    else
      var c := copies[|copies| - 1];
      Bytes(copies[..|copies| - 1]) + (if c.Copied? then c.bytes else 0)
  }

  /** `copies`: one result per planned key, in the order of completion. `listing`: the destination
      afterwards, if it could be listed. `seen`: what the progress callback was shown. */
  method Run(plan: seq<Object>, copies: seq<Copy>, listing: Option<seq<Object>>)
    returns (r: Option<Report>, seen: seq<Progress>)
    requires multiset(CopyKeys(copies)) == multiset(PlanKeys(plan))
    ensures r.Some? <==> forall i | 0 <= i < |copies| :: copies[i].Copied?
    ensures r.Some? ==> r.value.objects == |plan| == |copies| && r.value.bytes == Bytes(copies)
    ensures r.Some? ==> |r.value.checksums| == |copies|
                        && forall i | 0 <= i < |copies| :: r.value.checksums[i] == (copies[i].key, copies[i].sha)
    ensures r.Some? ==> (r.value.verified <==> r.value.wrong.None?)
    ensures r.Some? ==> (r.value.verified <==> listing.Some? && Verified(plan, ToMap(listing.value)))
    ensures r.Some? && r.value.wrong.Some? ==>
              if listing.None? then r.value.wrong.value == ListFailed
              else FirstWrong(plan, ToMap(listing.value), r.value.wrong.value)
    ensures |seen| <= |copies| && (r.Some? ==> |seen| == |copies|)
    ensures forall i | 0 <= i < |seen| :: seen[i] == Progress(|plan|, i + 1, Sizes(plan), Bytes(copies[..i + 1]))
  {
    assert |multiset(CopyKeys(copies))| == |copies| && |multiset(PlanKeys(plan))| == |plan|;
    var report := Report(0, 0, [], false, None);
    var bytesTotal := Sizes(plan);
    seen := [];
    for i := 0 to |copies|
      invariant forall j | 0 <= j < i :: copies[j].Copied?
      invariant report.objects == i == |seen| == |report.checksums| && report.bytes == Bytes(copies[..i])
      invariant forall j | 0 <= j < i :: report.checksums[j] == (copies[j].key, copies[j].sha)
      invariant forall j | 0 <= j < i :: seen[j] == Progress(|plan|, j + 1, bytesTotal, Bytes(copies[..j + 1]))
    {
      assert copies[..i + 1][..i] == copies[..i];
      if copies[i].CopyFailed? {
        return None, seen;
      }
      report := Report(report.objects + 1, report.bytes + copies[i].bytes,
                       report.checksums + [(copies[i].key, copies[i].sha)], false, None);
      seen := seen + [Progress(|plan|, report.objects, bytesTotal, report.bytes)];
    }
    assert copies[..|copies|] == copies;
    var wrong := Verify(plan, listing);
    r := Some(report.(verified := wrong.None?, wrong := wrong));
  }

  lemma {:induction false} BytesWithout(copies: seq<Copy>, i: nat)
    requires i < |copies|
    ensures Bytes(copies) == Bytes(copies[..i] + copies[i + 1..]) + (if copies[i].Copied? then copies[i].bytes else 0)
  {
    var n := |copies| - 1;
    if i == n {
      assert copies[..i] + copies[i + 1..] == copies[..n];
    } else {
      BytesWithout(copies[..n], i);
      var less := copies[..i] + copies[i + 1..];
      assert less[|less| - 1] == copies[n];
      assert less[..|less| - 1] == copies[..n][..i] + copies[..n][i + 1..];
    }
  }

  /** The totals do not depend on the order in which the copies complete. */
  lemma {:induction false} TotalsIgnoreOrder(a: seq<Copy>, b: seq<Copy>)
    requires multiset(a) == multiset(b)
    ensures |a| == |b| && Bytes(a) == Bytes(b)
    decreases |a|
  {
    assert |multiset(a)| == |a| && |multiset(b)| == |b|;
    if a != [] {
      var n := |a| - 1;
      assert a == a[..n] + [a[n]];
      assert a[n] in multiset(b);
      var i :| 0 <= i < |b| && b[i] == a[n];
      assert b == b[..i] + [b[i]] + b[i + 1..];
      BytesWithout(b, i);
      assert multiset(a[..n]) == multiset(a) - multiset{a[n]};
      assert multiset(b[..i] + b[i + 1..]) == multiset(b) - multiset{b[i]};
      TotalsIgnoreOrder(a[..n], b[..i] + b[i + 1..]);
    }
  }
}
