/** The synthesized drain: each tick shrinks a streaming stream's recorded lag to six tenths. Lags are
    `i64`; the release profile wraps on overflow, so the multiplication is modelled wrapping. */
module CdcDrain {
  import opened Numbers

  const I64_MIN := -0x8000_0000_0000_0000

  type I64 = x: int | I64_MIN <= x <= I64_MAX

  function Wrap(x: int): (r: I64)
    ensures I64_MIN <= x <= I64_MAX ==> r == x
  {
    (x - I64_MIN) % 0x1_0000_0000_0000_0000 + I64_MIN
  }

  /** Division by ten as Rust does it, toward zero. */
  function Tenth(x: int): (r: int) {
    if x < 0 then -(-x / 10) else x / 10
  }

  /** `(lag * 6 / 10).max(0)`. */
  function Shrink(lag: I64): (r: I64)
    ensures 0 <= r <= I64_MAX / 10
  {
    var x := Tenth(Wrap(lag * 6));
    if x < 0 then 0 else x
  }

  datatype Stream = Stream(streaming: bool, lagBytes: I64, lagSeconds: I64, events: I64)

  predicate CaughtUp(st: Stream) {
    st.lagSeconds <= 0 && st.lagBytes <= 0
  }

  function DrainOne(st: Stream): (r: Stream) {
    if !st.streaming || CaughtUp(st) then st
    else st.(lagBytes := Shrink(st.lagBytes), lagSeconds := Shrink(st.lagSeconds), events := Wrap(st.events + 5000))
  }

  /** The `cdc_streams` rows. */
  class CdcTable {
    var rows: seq<Stream>

    constructor (rows: seq<Stream>)
      ensures this.rows == rows
    {
      this.rows := rows;
    }

    /** One `drain_fake_cdc`: list the streaming rows, then rewrite the ones that still lag. */
    method DrainTick()
      modifies this
      ensures |rows| == |old(rows)|
      ensures forall i | 0 <= i < |rows| :: rows[i] == DrainOne(old(rows)[i])
    {
      var i := 0;
      while i < |rows|
        invariant 0 <= i <= |rows| == |old(rows)|
        invariant forall k | 0 <= k < i :: rows[k] == DrainOne(old(rows)[k])
        invariant forall k | i <= k < |rows| :: rows[k] == old(rows)[k]
      {
        var st := rows[i];
        if st.streaming && !(st.lagSeconds <= 0 && st.lagBytes <= 0) {
          var bytes := Shrink(st.lagBytes);
          var seconds := Shrink(st.lagSeconds);
          rows := rows[i := st.(lagBytes := bytes, lagSeconds := seconds, events := Wrap(st.events + 5000))];
        }
        i := i + 1;
      }
    }
  }

  /** One tick on one row: nothing on a row that does not stream or has caught up; otherwise six tenths of
      each lag, rounded down, and five thousand events more. */
  lemma OneTick(st: Stream)
    ensures !st.streaming || (st.lagBytes <= 0 && st.lagSeconds <= 0) ==> DrainOne(st) == st
    ensures st.streaming && (st.lagBytes > 0 || st.lagSeconds > 0)
            && 0 <= st.lagBytes <= I64_MAX / 6 && 0 <= st.lagSeconds <= I64_MAX / 6 && st.events <= I64_MAX - 5000
            ==> DrainOne(st) == Stream(true, 6 * st.lagBytes / 10, 6 * st.lagSeconds / 10, st.events + 5000)
  {
  }

  function Ticks(st: Stream, n: nat): (r: Stream) {
    if n == 0 then st else DrainOne(Ticks(st, n - 1))
  }

  /** Without overflow the lag shrinks to six tenths, rounded down. */
  lemma ShrinkBound(lag: I64)
    requires 0 <= lag <= I64_MAX / 6
    ensures Shrink(lag) == 6 * lag / 10
  {
  }

  /** Both measures are at most `bound`. */
  predicate Within(st: Stream, bound: int) {
    st.lagBytes <= bound && st.lagSeconds <= bound
  }

  lemma DrainHalves(st: Stream, bound: nat)
    requires st.streaming && Within(st, bound) && bound <= I64_MAX / 6
    requires st.lagBytes >= 0 && st.lagSeconds >= 0
    ensures var t := DrainOne(DrainOne(st));
            t.streaming && Within(t, bound / 2) && t.lagBytes >= 0 && t.lagSeconds >= 0
  {
    ShrinkBound(st.lagBytes);
    ShrinkBound(st.lagSeconds);
    ShrinkBound(Shrink(st.lagBytes));
    ShrinkBound(Shrink(st.lagSeconds));
  }

  /** A backlog below `2^k` in both measures is gone after `2k` ticks. */
  lemma {:induction false} DrainsInLogTicks(st: Stream, k: nat)
    requires st.streaming && st.lagBytes >= 0 && st.lagSeconds >= 0
    requires Within(st, Pow2(k) - 1) && Pow2(k) - 1 <= I64_MAX / 6
    ensures var t := Ticks(st, 2 * k); t.streaming && t.lagBytes == 0 && t.lagSeconds == 0
    decreases k
  {
    if k > 0 {
      var t := DrainOne(DrainOne(st));
      DrainHalves(st, Pow2(k) - 1);
      assert (Pow2(k) - 1) / 2 == Pow2(k - 1) - 1;
      DrainsInLogTicks(t, k - 1);
      TicksCompose(st, 2, 2 * k - 2);
      assert Ticks(st, 1) == DrainOne(Ticks(st, 0));
    }
  }

  lemma {:induction false} TicksCompose(st: Stream, a: nat, b: nat)
    ensures Ticks(Ticks(st, a), b) == Ticks(st, a + b)
  {
    if b > 0 { TicksCompose(st, a, b - 1); }
  }

  lemma {:induction false} CaughtUpStays(st: Stream, n: nat)
    requires CaughtUp(st)
    ensures Ticks(st, n) == st
  {
    if n > 0 { CaughtUpStays(st, n - 1); }
  }

  lemma {:induction false} Pow2Values()
    ensures Pow2(60) == 0x1000_0000_0000_0000
  {
    assert Pow2(10) == 1024;
    Pow2Sum(10, 10);
    Pow2Sum(20, 20);
    Pow2Sum(40, 20);
  }

  /** Every streaming row, whatever `i64` lags it starts with (negative, or so large that the
      product wraps), is caught up after 121 ticks and never lags again. */
  lemma DrainConverges(st: Stream, n: nat)
    requires st.streaming && n >= 121
    ensures CaughtUp(Ticks(st, n))
    ensures Ticks(st, n) == Ticks(st, 121)
  {
    if CaughtUp(st) {
      CaughtUpStays(st, n);
      CaughtUpStays(st, 121);
    } else {
      var t := DrainOne(st);
      assert Ticks(st, 1) == DrainOne(Ticks(st, 0));
      Pow2Values();
      assert Within(t, I64_MAX / 10) && I64_MAX / 10 <= Pow2(60) - 1 <= I64_MAX / 6;
      DrainsInLogTicks(t, 60);
      TicksCompose(st, 1, 120);
      CaughtUpStays(Ticks(st, 121), n - 121);
      TicksCompose(st, 121, n - 121);
    }
  }
}
