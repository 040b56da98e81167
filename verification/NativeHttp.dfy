/** The failover client: rounds over the endpoints, retried while an election is in progress. What
    each request meets is an input; the model follows which requests are made and what is concluded
    from the replies. Status codes are those of RFC 9110 (421 in section 15.5.20, 503 in 15.6.4). */
module NativeHttp {

  datatype Method = Get | Post | Put | Delete

  /** How one request ended: not sent or not answered (`timeout` or not), a reply whose body was lost,
      or a complete reply. */
  datatype Attempt = SendFailed(timeout: bool) | BodyLost | Answer(status: nat)

  datatype Result = Ok | NotFound | Invalid | BadCredentials | Unreachable | OtherStatus(status: nat)

  /** Either the call is over, or the next endpoint is tried. */
  datatype Verdict = Stop(result: Result) | GoOn

  predicate Success(status: nat) {
    200 <= status < 300
  }

  /** Outcomes after which a mutation may or may not have been applied. */
  predicate Ambiguous(a: Attempt) {
    a == SendFailed(true) || a == Answer(503)
  }

  function Judge(m: Method, ambiguous: bool, a: Attempt): (v: Verdict) {
    match a
    case SendFailed(_) => GoOn
    case BodyLost => Stop(Unreachable)
    case Answer(status) =>
      if Success(status) then Stop(Ok)
      else if status == 421 || status == 503 then GoOn
      else if status == 401 || status == 403 then Stop(BadCredentials)
      else if status == 404 && m == Delete && ambiguous then Stop(Ok)
      else if status == 404 then Stop(NotFound)
      else if status == 400 || status == 413 then Stop(Invalid)
      else Stop(OtherStatus(status))
  }

  predicate AnyAmbiguous(made: seq<Attempt>) {
    exists i | 0 <= i < |made| :: Ambiguous(made[i])
  }

  /** The verdict on request `i`, given those before it; `before`: was anything earlier ambiguous. */
  function VerdictAt(m: Method, before: bool, made: seq<Attempt>, i: nat): (v: Verdict)
    requires i < |made|
  {
    Judge(m, before || AnyAmbiguous(made[..i]), made[i])
  }

  /** Every one of these requests let the client go on to the next. */
  predicate AllGoOn(m: Method, before: bool, made: seq<Attempt>) {
    forall i | 0 <= i < |made| :: VerdictAt(m, before, made, i) == GoOn
  }

  /** `r` is concluded from `made`: the last request decided it, in the light of the ones before, or
      none did. */
  predicate Concludes(m: Method, made: seq<Attempt>, r: Result) {
    || (AllGoOn(m, false, made) && r == Unreachable)
    || (&& made != []
        && var n := |made| - 1;
        && AllGoOn(m, false, made[..n])
        && VerdictAt(m, false, made, n) == Stop(r))
  }

  /** `Decided`: some reply ended the call. `Electing`: every endpoint was tried and one said it is not
      the leader. `Exhausted`: every endpoint was tried and none did. */
  datatype RoundEnd = Decided(result: Result) | Electing | Exhausted

  /** The endpoints of one round, in the order tried. */
  function Cycle(start: nat, n: nat, count: nat): (r: seq<nat>)
    requires n > 0
    ensures |r| == count
  {
    seq(count, k requires 0 <= k => (start + k) % n)
  }

  class HttpApi {
    const endpoints: nat
    var preferred: nat

    ghost predicate Valid()
      reads this
    {
      0 < endpoints && preferred < endpoints
    }

    constructor (endpoints: nat)
      requires endpoints > 0
      ensures Valid() && this.endpoints == endpoints && preferred == 0
    {
      this.endpoints, preferred := endpoints, 0;
    }

    /** One round. `meets[k]` is what the `k`-th request of the round would meet. */
    method Round(m: Method, meets: seq<Attempt>, before: bool) returns (end: RoundEnd, ambiguous: bool, tried: seq<nat>)
      requires Valid() && |meets| == endpoints
      modifies this
      ensures Valid() && |tried| <= endpoints
      ensures tried == Cycle(old(preferred), endpoints, |tried|)
      ensures ambiguous == (before || AnyAmbiguous(meets[..|tried|]))
      ensures end.Decided? ==>
                && |tried| > 0
                && AllGoOn(m, before, meets[..|tried| - 1])
                && VerdictAt(m, before, meets, |tried| - 1) == Stop(end.result)
      ensures !end.Decided? ==> |tried| == endpoints && AllGoOn(m, before, meets)
      ensures end.Electing? <==> !end.Decided? && Answer(421) in meets
      ensures preferred == if end.Decided? && meets[|tried| - 1].Answer? && Success(meets[|tried| - 1].status)
                           then tried[|tried| - 1] else old(preferred)
    {
      var start := preferred % endpoints;
      var notLeader := false;
      ambiguous := before;
      tried := [];
      var k := 0;
      while k < endpoints
        invariant 0 <= k <= endpoints && |tried| == k
        invariant tried == Cycle(start, endpoints, k)
        invariant ambiguous == (before || AnyAmbiguous(meets[..k]))
        invariant AllGoOn(m, before, meets[..k])
        invariant notLeader <==> Answer(421) in meets[..k]
        invariant preferred == start == old(preferred)
      {
        var i := (start + k) % endpoints;
        var a := meets[k];
        ghost var soFar := ambiguous;
        tried := tried + [i];
        Grow(m, before, meets, k);
        match a {
          case SendFailed(timeout) =>
            ambiguous := ambiguous || timeout;
          case BodyLost =>
            return Decided(Unreachable), ambiguous, tried;
          case Answer(status) =>
            if 200 <= status < 300 {
              preferred := i;
              return Decided(Ok), ambiguous, tried;
            }
            if status == 421 || status == 503 {
              notLeader := notLeader || status == 421;
              ambiguous := ambiguous || status == 503;
            } else if status == 401 || status == 403 {
              return Decided(BadCredentials), ambiguous, tried;
            } else if status == 404 && m == Delete && ambiguous {
              return Decided(Ok), ambiguous, tried;
            } else if status == 404 {
              return Decided(NotFound), ambiguous, tried;
            } else if status == 400 || status == 413 {
              return Decided(Invalid), ambiguous, tried;
            } else {
              return Decided(OtherStatus(status)), ambiguous, tried;
            }
        }
        assert Judge(m, soFar, a) == GoOn;
        k := k + 1;
      }
      assert meets[..k] == meets;
      end := if notLeader then Electing else Exhausted;
    }

    /** A whole call. `rounds[i]` is what round `i` would meet; how many rounds fit before the deadline is
        `|rounds|`. `made` lists the requests in the order made; `used` is how many rounds were begun. */
    method Call(m: Method, rounds: seq<seq<Attempt>>) returns (r: Result, made: seq<Attempt>, used: nat)
      requires Valid() && |rounds| > 0 && forall i | 0 <= i < |rounds| :: |rounds[i]| == endpoints
      modifies this
      ensures Valid()
      ensures made != [] && Concludes(m, made, r)
      ensures Ended(m, rounds, made, used)
    {
      made := [];
      var ambiguous := false;
      used := 0;
      while true
        invariant Valid() && 0 <= used < |rounds|
        invariant ambiguous == AnyAmbiguous(made) && AllGoOn(m, false, made)
        invariant made == Flatten(rounds[..used]) && AllElecting(rounds[..used])
        decreases |rounds| - used
      {
        var end, amb, tried := Round(m, rounds[used], ambiguous);
        var now := rounds[used][..|tried|];
        AmbiguityJoins(made, now);
        if end.Decided? {
          assert now[..|tried| - 1] == rounds[used][..|tried| - 1];
          DecidedAtTheEnd(m, made, now, end.result);
          DecidedEnds(m, rounds, made, used, |tried|, end.result);
          return end.result, made + now, used + 1;
        }
        assert now == rounds[used];
        GoOnJoins(m, made, now);
        made := made + now;
        ambiguous := amb;
        OneMoreRound(rounds, used);
        used := used + 1;
        if end.Exhausted? || used == |rounds| {
          return Unreachable, made, used;
        }
      }
    }
  }

  function Flatten(rounds: seq<seq<Attempt>>): (r: seq<Attempt>) {
    if rounds == [] then [] else Flatten(rounds[..|rounds| - 1]) + rounds[|rounds| - 1]
  }

  /** In each of these rounds some node said it is not the leader. */
  predicate AllElecting(rounds: seq<seq<Attempt>>) {
    forall i | 0 <= i < |rounds| :: Answer(421) in rounds[i]
  }

  /** When a call ends: every round before the last went through all endpoints and met a 421; the last
      was decided by its last request, or went through all endpoints too and either met no 421 or was
      the last before the deadline. */
  ghost predicate Ended(m: Method, rounds: seq<seq<Attempt>>, made: seq<Attempt>, used: nat) {
    && 1 <= used <= |rounds|
    && AllElecting(rounds[..used - 1])
    && (if AllGoOn(m, false, made)
        then made == Flatten(rounds[..used]) && (Answer(421) in rounds[used - 1] ==> used == |rounds|)
        else exists last :: Partial(rounds, made, used, last))
  }

  predicate Partial(rounds: seq<seq<Attempt>>, made: seq<Attempt>, used: nat, last: int) {
    && 1 <= used <= |rounds| && 1 <= last <= |rounds[used - 1]|
    && made == Flatten(rounds[..used - 1]) + rounds[used - 1][..last]
  }

  lemma OneMoreRound(rounds: seq<seq<Attempt>>, used: nat)
    requires used < |rounds|
    ensures Flatten(rounds[..used + 1]) == Flatten(rounds[..used]) + rounds[used]
    ensures AllElecting(rounds[..used + 1]) <==> AllElecting(rounds[..used]) && Answer(421) in rounds[used]
  {
    var longer := rounds[..used + 1];
    assert longer[..used] == rounds[..used] && longer[used] == rounds[used];
    assert longer == rounds[..used] + [rounds[used]];
  }

  /** A reply that stops the call in round `used`. */
  lemma DecidedEnds(m: Method, rounds: seq<seq<Attempt>>, made: seq<Attempt>, used: nat, last: nat, r: Result)
    requires used < |rounds| && 1 <= last <= |rounds[used]|
    requires made == Flatten(rounds[..used]) && AllElecting(rounds[..used])
    requires VerdictAt(m, AnyAmbiguous(made), rounds[used], last - 1) == Stop(r)
    ensures Ended(m, rounds, made + rounds[used][..last], used + 1)
  {
    var now := rounds[used][..last];
    var all := made + now;
    assert Partial(rounds, all, used + 1, last);
    assert all[..|all| - 1] == made + now[..last - 1] && now[..last - 1] == rounds[used][..last - 1];
    AmbiguityJoins(made, now[..last - 1]);
    assert VerdictAt(m, false, all, |all| - 1) == Stop(r);
  }

  lemma Grow(m: Method, before: bool, meets: seq<Attempt>, k: nat)
    requires k < |meets|
    ensures AnyAmbiguous(meets[..k + 1]) <==> AnyAmbiguous(meets[..k]) || Ambiguous(meets[k])
    ensures AllGoOn(m, before, meets[..k + 1])
       <==> AllGoOn(m, before, meets[..k]) && VerdictAt(m, before, meets, k) == GoOn
    ensures Answer(421) in meets[..k + 1] <==> Answer(421) in meets[..k] || meets[k] == Answer(421)
  {
    var longer, shorter := meets[..k + 1], meets[..k];
    assert longer == shorter + [meets[k]];
    assert VerdictAt(m, before, longer, k) == VerdictAt(m, before, meets, k) by { assert longer[..k] == meets[..k]; }
    forall i | 0 <= i < k ensures VerdictAt(m, before, longer, i) == VerdictAt(m, before, shorter, i) {
      assert longer[..i] == shorter[..i];
    }
    assert AnyAmbiguous(shorter) ==> AnyAmbiguous(longer) by {
      if i :| 0 <= i < k && Ambiguous(shorter[i]) { assert Ambiguous(longer[i]); }
    }
    assert Ambiguous(meets[k]) ==> AnyAmbiguous(longer) by { assert longer[k] == meets[k]; }
  }

  lemma AmbiguityJoins(a: seq<Attempt>, b: seq<Attempt>)
    ensures AnyAmbiguous(a + b) <==> AnyAmbiguous(a) || AnyAmbiguous(b)
  {
    if i :| 0 <= i < |a| && Ambiguous(a[i]) { assert Ambiguous((a + b)[i]); }
    if i :| 0 <= i < |b| && Ambiguous(b[i]) { assert Ambiguous((a + b)[|a| + i]); }
  }

  lemma GoOnJoins(m: Method, a: seq<Attempt>, b: seq<Attempt>)
    requires AllGoOn(m, false, a) && AllGoOn(m, AnyAmbiguous(a), b)
    ensures AllGoOn(m, false, a + b)
  {
    forall i | 0 <= i < |a + b| ensures VerdictAt(m, false, a + b, i) == GoOn {
      if i < |a| {
        assert (a + b)[..i] == a[..i];
        assert VerdictAt(m, false, a, i) == GoOn;
      } else {
        assert (a + b)[..i] == a + b[..i - |a|];
        AmbiguityJoins(a, b[..i - |a|]);
        assert VerdictAt(m, AnyAmbiguous(a), b, i - |a|) == GoOn;
      }
    }
  }

  /** A reply that decides its round decides the call. */
  lemma DecidedAtTheEnd(m: Method, made: seq<Attempt>, now: seq<Attempt>, r: Result)
    requires now != [] && AllGoOn(m, false, made)
    requires AllGoOn(m, AnyAmbiguous(made), now[..|now| - 1])
    requires VerdictAt(m, AnyAmbiguous(made), now, |now| - 1) == Stop(r)
    ensures Concludes(m, made + now, r)
  {
    var n := |now| - 1;
    assert (made + now)[..|made| + n] == made + now[..n];
    AmbiguityJoins(made, now[..n]);
    GoOnJoins(m, made, now[..n]);
  }

  /** A round never tries an endpoint twice, and one that is not decided has tried them all. */
  lemma RoundVisitsEachOnce(start: nat, n: nat, count: nat)
    requires n > 0 && count <= n
    ensures forall i, j | 0 <= i < j < count :: Cycle(start, n, count)[i] != Cycle(start, n, count)[j]
    ensures count == n ==> forall e | 0 <= e < n :: e in Cycle(start, n, count)
  {
    var c := Cycle(start, n, count);
    forall i, j | 0 <= i < j < count ensures c[i] != c[j] {
      if (start + i) % n == (start + j) % n {
        SameRemainder(start + i, start + j, n);
        assert false;
      }
    }
    if count == n {
      forall e | 0 <= e < n ensures e in c {
        var k := if start % n <= e then e - start % n else e + n - start % n;
        WrapAround(start, k, e, n);
        assert c[k] == e;
      }
    }
  }

  /** It begins with the preferred endpoint and goes on to the next, after the last one to the first. */
  lemma RoundGoesAround(start: nat, n: nat, count: nat, i: nat)
    requires start < n && i < count <= n
    ensures Cycle(start, n, count)[0] == start
    ensures i > 0 ==>
              var e := Cycle(start, n, count)[i - 1]; Cycle(start, n, count)[i] == if e + 1 == n then 0 else e + 1
  {
    Remainder(start, 0, n);
    if i > 0 { NextRemainder(start + i - 1, n); }
  }

  lemma NextRemainder(a: nat, n: nat)
    requires n > 0
    ensures (a + 1) % n == if a % n + 1 == n then 0 else a % n + 1
  {
    var q := a / n;
    assert a + 1 == q * n + (a % n + 1);
    if a % n + 1 == n {
      assert a + 1 == (q + 1) * n;
      Remainder(a + 1, q + 1, n);
    } else {
      Remainder(a + 1, q, n);
    }
  }

  lemma SameRemainder(a: nat, b: nat, n: nat)
    requires 0 < n && a < b < a + n
    ensures a % n != b % n
  {
    var q, r := a / n, a % n;
    assert a == q * n + r;
    assert (q + 1) * n == q * n + n;
    if b < q * n + n {
      Remainder(b, q, n);
    } else {
      Remainder(b, q + 1, n);
    }
  }

  lemma Cancel(a: int, b: int, n: nat)
    requires a * n < b * n
    ensures a < b
  {
    assert (b - a) * n == b * n - a * n > 0;
  }

  lemma Remainder(x: nat, q: nat, n: nat)
    requires 0 < n && q * n <= x < q * n + n
    ensures x % n == x - q * n && x / n == q
  {
    var d := x / n;
    assert x == d * n + x % n;
    Cancel(d, q + 1, n);
    Cancel(q, d + 1, n);
  }

  lemma WrapAround(start: nat, k: nat, e: nat, n: nat)
    requires e < n
    requires k == if start % n <= e then e - start % n else e + n - start % n
    ensures k < n && (start + k) % n == e
  {
    var q := start / n;
    assert start == q * n + start % n;
    if start % n <= e {
      Remainder(start + k, q, n);
    } else {
      assert start + k == (q + 1) * n + e;
      Remainder(start + k, q + 1, n);
    }
  }

  // ---- What each result means ----

  /** What the last request met, and whether a timeout or a 503 came before it. */
  function Last(made: seq<Attempt>): (a: Attempt)
    requires made != []
  {
    made[|made| - 1]
  }

  predicate AmbiguousBefore(made: seq<Attempt>) {
    made != [] && exists i | 0 <= i < |made| - 1 :: made[i] == SendFailed(true) || made[i] == Answer(503)
  }

  lemma AmbiguousBeforeIsTheBit(made: seq<Attempt>)
    requires made != []
    ensures AmbiguousBefore(made) <==> AnyAmbiguous(made[..|made| - 1])
  {
    var shorter := made[..|made| - 1];
    if AmbiguousBefore(made) {
      var i :| 0 <= i < |made| - 1 && (made[i] == SendFailed(true) || made[i] == Answer(503));
      assert Ambiguous(shorter[i]);
    }
    if AnyAmbiguous(shorter) {
      var i :| 0 <= i < |shorter| && Ambiguous(shorter[i]);
      assert made[i] == shorter[i];
    }
  }

  /** A reply after which the next endpoint is tried: not sent, not the leader, or try again. */
  predicate TriesOn(a: Attempt) {
    a.SendFailed? || a == Answer(421) || a == Answer(503)
  }

  lemma GoesOnIff(m: Method, before: bool, made: seq<Attempt>)
    ensures AllGoOn(m, before, made) <==> forall i | 0 <= i < |made| :: TriesOn(made[i])
  {
    forall i | 0 <= i < |made| ensures VerdictAt(m, before, made, i) == GoOn <==> TriesOn(made[i]) {}
  }

  /** For every method and every sequence of replies, the result in terms of the replies: all before the
      last were tried on from, and the last decides. */
  ghost predicate Means(m: Method, made: seq<Attempt>, r: Result) {
    if forall i | 0 <= i < |made| :: TriesOn(made[i]) then r == Unreachable
    else
      && made != [] && (forall i | 0 <= i < |made| - 1 :: TriesOn(made[i]))
      && match r
         case Ok =>
           || (Last(made).Answer? && 200 <= Last(made).status <= 299)
           || (Last(made) == Answer(404) && m == Delete && AmbiguousBefore(made))
         case NotFound => Last(made) == Answer(404) && !(m == Delete && AmbiguousBefore(made))
         case Invalid => Last(made) == Answer(400) || Last(made) == Answer(413)
         case BadCredentials => Last(made) == Answer(401) || Last(made) == Answer(403)
         case Unreachable => Last(made) == BodyLost
         case OtherStatus(status) =>
           && Last(made) == Answer(status) && !(200 <= status <= 299)
           && status !in {400, 401, 403, 404, 413, 421, 503}
  }

  lemma ResultsMean(m: Method, made: seq<Attempt>, r: Result)
    ensures Concludes(m, made, r) <==> Means(m, made, r)
  {
    GoesOnIff(m, false, made);
    if made != [] && !AllGoOn(m, false, made) {
      var shorter := made[..|made| - 1];
      GoesOnIff(m, false, shorter);
      if forall i | 0 <= i < |made| - 1 :: TriesOn(made[i]) {
        AmbiguousBeforeIsTheBit(made);
        LastDecides(m, made, r);
      } else {
        var i :| 0 <= i < |made| - 1 && !TriesOn(made[i]);
        assert !TriesOn(shorter[i]);
      }
    }
  }

  lemma LastDecides(m: Method, made: seq<Attempt>, r: Result)
    requires made != [] && !TriesOn(Last(made))
    requires AmbiguousBefore(made) <==> AnyAmbiguous(made[..|made| - 1])
    requires forall i | 0 <= i < |made| - 1 :: TriesOn(made[i])
    ensures VerdictAt(m, false, made, |made| - 1) == Stop(r) <==> Means(m, made, r)
  {
    assert !TriesOn(made[|made| - 1]);
  }

  // ---- What a request may have done ----

  /** A request that can have been carried out. Nothing was proposed before a 421; a send that failed
      other than by timeout did not arrive; the other refusals are sent instead of acting. */
  predicate MayApply(a: Attempt) {
    match a
    case SendFailed(timeout) => timeout
    case BodyLost => true
    case Answer(status) => status !in {421, 404, 401, 403, 400, 413}
  }

  /** Two different requests of the call can both have been carried out. */
  ghost predicate MayApplyTwice(made: seq<Attempt>) {
    exists i, j | 0 <= i < j < |made| :: MayApply(made[i]) && MayApply(made[j])
  }

  /** Some request that can have been carried out was made with the `ambiguous` bit already set. */
  ghost predicate AppliedWhileAmbiguous(made: seq<Attempt>) {
    exists j | 0 <= j < |made| :: MayApply(made[j]) && AnyAmbiguous(made[..j])
  }

  lemma EarlierOnesGoOn(m: Method, made: seq<Attempt>, r: Result, i: nat)
    requires Concludes(m, made, r) && i + 1 < |made|
    ensures MayApply(made[i]) <==> Ambiguous(made[i])
  {
    if AllGoOn(m, false, made) {
      assert VerdictAt(m, false, made, i) == GoOn;
    } else {
      var shorter := made[..|made| - 1];
      assert VerdictAt(m, false, shorter, i) == GoOn && shorter[i] == made[i];
    }
  }

  /** When a call can carry out a mutation twice: exactly when, with the `ambiguous` bit set by a timeout or
      a 503, it makes a request that can be carried out, in the same round or, if the round also met a
      421, in a later one. */
  lemma AppliesTwiceIff(m: Method, made: seq<Attempt>, r: Result)
    requires Concludes(m, made, r)
    ensures MayApplyTwice(made) <==> AppliedWhileAmbiguous(made)
  {
    forall i | 0 <= i && i + 1 < |made| ensures MayApply(made[i]) <==> Ambiguous(made[i]) {
      EarlierOnesGoOn(m, made, r, i);
    }
    if MayApplyTwice(made) {
      var i, j :| 0 <= i < j < |made| && MayApply(made[i]) && MayApply(made[j]);
      assert made[..j][i] == made[i] && Ambiguous(made[..j][i]);
    }
    if AppliedWhileAmbiguous(made) {
      var j :| 0 <= j < |made| && MayApply(made[j]) && AnyAmbiguous(made[..j]);
      var i :| 0 <= i < |made[..j]| && Ambiguous(made[..j][i]);
      assert MayApply(made[i]);
    }
  }

  /** Retrying a round for its 421s alone is safe: rounds with no timeout and no 503 add nothing that can
      have been carried out. */
  lemma ElectionRetriesAreSafe(m: Method, rounds: seq<seq<Attempt>>)
    requires AllGoOn(m, false, Flatten(rounds)) && !AnyAmbiguous(Flatten(rounds))
    ensures forall i | 0 <= i < |Flatten(rounds)| :: !MayApply(Flatten(rounds)[i])
  {
    var made := Flatten(rounds);
    forall i | 0 <= i < |made| ensures !MayApply(made[i]) {
      assert VerdictAt(m, false, made, i) == GoOn && !Ambiguous(made[i]);
    }
  }

  /** But a round that met a 503 as well is retried all the same, and then the mutation can be carried out
      twice: two endpoints, a 503 and a 421, and success in the next round. */
  lemma MixedRoundIsRetried(m: Method)
    ensures Concludes(m, MIXED, Ok) && Ended(m, MIXED_ROUNDS, MIXED, 2) && MayApplyTwice(MIXED)
  {
    MixedConcludes(m);
    var first := MIXED_ROUNDS[0];
    assert MIXED_ROUNDS[..0] == [];
    OneMoreRound(MIXED_ROUNDS, 0);
    assert first[..2] == first && MIXED == first + MIXED_ROUNDS[1][..1];
    assert Partial(MIXED_ROUNDS, MIXED, 2, 1);
    assert MayApply(MIXED[0]) && MayApply(MIXED[2]);
  }

  const MIXED_ROUNDS := [[Answer(503), Answer(421)], [Answer(200), Answer(421)]]
  const MIXED := [Answer(503), Answer(421), Answer(200)]

  lemma MixedConcludes(m: Method)
    ensures Concludes(m, MIXED, Ok) && !AllGoOn(m, false, MIXED)
  {
    var first := MIXED[..2];
    assert VerdictAt(m, false, first, 0) == GoOn && VerdictAt(m, false, first, 1) == GoOn;
    assert VerdictAt(m, false, MIXED, 2) == Stop(Ok);
  }

  // ---- What a DELETE's result says about the object ----

  predicate SomeMayApply(made: seq<Attempt>) {
    exists j | 0 <= j < |made| :: MayApply(made[j])
  }

  /** The object's presence around request `i`. There are no other writers, so it never comes back, and
      it goes only through a request made so far, possibly some time after that request. */
  predicate PlausibleAt(made: seq<Attempt>, present: seq<bool>, i: nat)
    requires |present| == |made| + 1 && i < |made|
  {
    && (present[i + 1] ==> present[i])
    && (present[i] && !present[i + 1] ==> SomeMayApply(made[..i + 1]))
    && (made[i].Answer? && (Success(made[i].status) || made[i].status == 404) ==> !present[i + 1])
  }

  /** `present[i]`: does the object exist after the first `i` requests. */
  ghost predicate Plausible(made: seq<Attempt>, present: seq<bool>) {
    |present| == |made| + 1 && forall i | 0 <= i < |made| :: PlausibleAt(made, present, i)
  }

  lemma {:induction false} StaysWhileNothingApplies(made: seq<Attempt>, present: seq<bool>, n: nat)
    requires Plausible(made, present) && n <= |made|
    requires forall j | 0 <= j < n :: !MayApply(made[j])
    ensures present[n] == present[0]
  {
    if n > 0 {
      StaysWhileNothingApplies(made, present, n - 1);
      assert PlausibleAt(made, present, n - 1);
    }
  }

  /** For every call: a DELETE that returns Ok leaves the object absent, and one that returns "not
      found" found it absent before its first request. So a retry that meets its own success is not
      mistaken for a missing object. */
  lemma DeleteMeansAbsent(made: seq<Attempt>, present: seq<bool>, r: Result)
    requires Concludes(Delete, made, r) && Plausible(made, present)
    ensures r == Ok ==> !present[|made|]
    ensures r == NotFound ==> !present[0]
  {
    if made != [] { assert PlausibleAt(made, present, |made| - 1); }
    if r == NotFound {
      var n := |made| - 1;
      assert !AnyAmbiguous(made[..n]);
      forall j | 0 <= j < |made| ensures !MayApply(made[j]) {
        if j < n {
          assert made[..n][j] == made[j] && !Ambiguous(made[..n][j]);
          assert VerdictAt(Delete, false, made[..n], j) == GoOn;
        }
      }
      StaysWhileNothingApplies(made, present, |made|);
    }
  }
}
