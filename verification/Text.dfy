/** Byte order on strings, zero-padded numbers, and the fixed-width timestamps whose text order is
    their time order. */
module Text {
  import opened Ordering

  /** The order of `str::cmp` and of a TEXT column. */
  predicate StrLe(a: string, b: string) {
    if a == [] then true
    else if b == [] then false
    else if a[0] != b[0] then a[0] < b[0]
    else StrLe(a[1..], b[1..])
  }

  lemma {:induction false} StrLeTotal(a: string, b: string)
    ensures StrLe(a, b) || StrLe(b, a)
    ensures StrLe(a, b) && StrLe(b, a) ==> a == b
  {
    if a != [] && b != [] {
      StrLeTotal(a[1..], b[1..]);
      if a[0] == b[0] && a[1..] == b[1..] {
        assert a == [a[0]] + a[1..] && b == [b[0]] + b[1..];
      }
    }
  }

  lemma {:induction false} StrLeTransitive(a: string, b: string, c: string)
    requires StrLe(a, b) && StrLe(b, c)
    ensures StrLe(a, c)
  {
    if a != [] && a[0] == b[0] == c[0] {
      StrLeTransitive(a[1..], b[1..], c[1..]);
    }
  }

  lemma StrLeIsTotalOrder()
    ensures TotalOrder(StrLe)
  {
    forall a, b ensures StrLe(a, b) || StrLe(b, a) { StrLeTotal(a, b); }
    forall a, b | StrLe(a, b) && StrLe(b, a) ensures a == b { StrLeTotal(a, b); }
    forall a, b, c | StrLe(a, b) && StrLe(b, c) ensures StrLe(a, c) { StrLeTransitive(a, b, c); }
  }

  lemma Uncons(a: string, b: string)
    requires a != []
    ensures (a + b)[0] == a[0] && (a + b)[1..] == a[1..] + b
  {
  }

  lemma EqualByTail(a: string, c: string)
    requires a != [] && c != []
    ensures a == c <==> a[0] == c[0] && a[1..] == c[1..]
  {
    if a[0] == c[0] && a[1..] == c[1..] {
      assert a == [a[0]] + a[1..] && c == [c[0]] + c[1..];
    }
  }

  /** Equal-length fields compare one after the other. */
  lemma {:induction false} StrLeByField(a: string, b: string, c: string, d: string)
    requires |a| == |c|
    ensures StrLe(a + b, c + d) <==> if a == c then StrLe(b, d) else StrLe(a, c)
  {
    if a == [] {
      assert a + b == b && c + d == d;
    } else {
      Uncons(a, b);
      Uncons(c, d);
      EqualByTail(a, c);
      StrLeByField(a[1..], b, c[1..], d);
    }
  }

  function Power10(w: nat): (p: nat)
    ensures p >= 1
  {
    if w == 0 then 1 else 10 * Power10(w - 1)
  }

  function Digit(d: nat): (c: char)
    requires d < 10
    ensures '0' <= c <= '9'
  {
    '0' + d as char
  }

  /** `{n:0w$}` for a number that fits in `w` digits. */
  function Pad(n: nat, w: nat): (r: string)
    ensures |r| == w
    ensures forall i | 0 <= i < w :: '0' <= r[i] <= '9'
  {
    if w == 0 then "" else Pad(n / 10, w - 1) + [Digit(n % 10)]
  }

  /** Among numbers of at most `w` digits, padded text order is numeric order, and no two numbers
      share a text. */
  lemma {:induction false} PadOrder(n: nat, m: nat, w: nat)
    requires n < Power10(w) && m < Power10(w)
    ensures StrLe(Pad(n, w), Pad(m, w)) <==> n <= m
    ensures Pad(n, w) == Pad(m, w) <==> n == m
  {
    if w > 0 {
      PadOrder(n / 10, m / 10, w - 1);
      StrLeByField(Pad(n / 10, w - 1), [Digit(n % 10)], Pad(m / 10, w - 1), [Digit(m % 10)]);
      DigitOrder(n % 10, m % 10);
      SnocEqual(Pad(n / 10, w - 1), Digit(n % 10), Pad(m / 10, w - 1), Digit(m % 10));
    }
  }

  lemma DigitOrder(d: nat, e: nat)
    requires d < 10 && e < 10
    ensures StrLe([Digit(d)], [Digit(e)]) <==> d <= e
    ensures Digit(d) == Digit(e) <==> d == e
  {
    var none: string := [];
    assert [Digit(d)][1..] == none && [Digit(e)][1..] == none;
  }

  lemma SnocEqual(a: string, x: char, b: string, y: char)
    requires |a| == |b|
    ensures a + [x] == b + [y] <==> a == b && x == y
  {
    assert (a + [x])[..|a|] == a && (b + [y])[..|b|] == b;
    assert (a + [x])[|a|] == x && (b + [y])[|b|] == y;
  }

  /** A UTC instant broken down the way the timestamp format prints it. */
  datatype Civil = Civil(year: nat, month: nat, day: nat, hour: nat, minute: nat, second: nat, milli: nat)
  {
    predicate Fits() {
      year < 10000 && month < 100 && day < 100 && hour < 100 && minute < 100 && second < 100 && milli < 1000
    }
  }

  /** Chronological order of two instants: the coarsest field that differs decides. */
  predicate NotAfter(a: Civil, b: Civil) {
    if a.year != b.year then a.year < b.year
    else if a.month != b.month then a.month < b.month
    else if a.day != b.day then a.day < b.day
    else if a.hour != b.hour then a.hour < b.hour
    else if a.minute != b.minute then a.minute < b.minute
    else if a.second != b.second then a.second < b.second
    else a.milli <= b.milli
  }

  /** `%Y-%m-%dT%H:%M:%S%.3fZ`. */
  function Stamp(t: Civil): (r: string) {
    (Pad(t.year, 4) + "-") + ((Pad(t.month, 2) + "-") + ((Pad(t.day, 2) + "T") + StampTime(t)))
  }

  function StampTime(t: Civil): (r: string) {
    (Pad(t.hour, 2) + ":") + ((Pad(t.minute, 2) + ":") + ((Pad(t.second, 2) + ".") + (Pad(t.milli, 3) + "Z")))
  }

  /** One padded field and its separator, followed by the rest of the text. */
  lemma FieldOrder(n: nat, m: nat, w: nat, sep: string, x: string, y: string)
    requires n < Power10(w) && m < Power10(w)
    ensures StrLe((Pad(n, w) + sep) + x, (Pad(m, w) + sep) + y)
       <==> if n != m then n < m else StrLe(x, y)
  {
    PadOrder(n, m, w);
    StrLeByField(Pad(n, w) + sep, x, Pad(m, w) + sep, y);
    StrLeByField(Pad(n, w), sep, Pad(m, w), sep);
    assert (Pad(n, w) + sep)[..w] == Pad(n, w) && (Pad(m, w) + sep)[..w] == Pad(m, w);
  }

  /** Section 5.1 of RFC 3339: with fixed-width UTC text, string order is time order. This is what
      `expires_at < now` on the lease row and the activity feed's merge rely on. */
  lemma StampOrder(a: Civil, b: Civil)
    requires a.Fits() && b.Fits()
    ensures StrLe(Stamp(a), Stamp(b)) <==> NotAfter(a, b)
  {
    Powers();
    StampTimeOrder(a, b);
    FieldOrder(a.day, b.day, 2, "T", StampTime(a), StampTime(b));
    FieldOrder(a.month, b.month, 2, "-", (Pad(a.day, 2) + "T") + StampTime(a), (Pad(b.day, 2) + "T") + StampTime(b));
    FieldOrder(a.year, b.year, 4, "-",
               (Pad(a.month, 2) + "-") + ((Pad(a.day, 2) + "T") + StampTime(a)),
               (Pad(b.month, 2) + "-") + ((Pad(b.day, 2) + "T") + StampTime(b)));
  }

  lemma StampTimeOrder(a: Civil, b: Civil)
    requires a.Fits() && b.Fits()
    ensures StrLe(StampTime(a), StampTime(b))
       <==> NotAfter(a.(year := 0, month := 0, day := 0), b.(year := 0, month := 0, day := 0))
  {
    Powers();
    var am, bm := Pad(a.milli, 3) + "Z", Pad(b.milli, 3) + "Z";
    PadOrder(a.milli, b.milli, 3);
    StrLeByField(Pad(a.milli, 3), "Z", Pad(b.milli, 3), "Z");
    StrLeTotal("Z", "Z");
    FieldOrder(a.second, b.second, 2, ".", am, bm);
    FieldOrder(a.minute, b.minute, 2, ":", (Pad(a.second, 2) + ".") + am, (Pad(b.second, 2) + ".") + bm);
    FieldOrder(a.hour, b.hour, 2, ":",
               (Pad(a.minute, 2) + ":") + ((Pad(a.second, 2) + ".") + am),
               (Pad(b.minute, 2) + ":") + ((Pad(b.second, 2) + ".") + bm));
  }

  lemma Powers()
    ensures Power10(2) == 100 && Power10(3) == 1000 && Power10(4) == 10000
  {
    assert Power10(0) == 1 && Power10(1) == 10;
  }

  predicate StartsWith(s: string, p: string) {
    |p| <= |s| && s[..|p|] == p
  }

  predicate Contains(s: string, part: string) {
    exists i | 0 <= i <= |s| :: StartsWith(s[i..], part)
  }

  /** The part occurs somewhere in the text. */
  lemma ContainsIff(s: string, part: string)
    ensures Contains(s, part) <==> exists a, b :: s == a + part + b
  {
    if i :| 0 <= i <= |s| && StartsWith(s[i..], part) {
      assert s == s[..i] + part + s[i..][|part|..];
    }
    if a, b :| s == a + part + b {
      assert s == a + (part + b);
      assert s[|a|..] == part + b;
      assert StartsWith(s[|a|..], part);
    }
  }

  predicate IsDigit(c: char) { '0' <= c <= '9' }

  predicate AllDigits(s: string) {
    forall i | 0 <= i < |s| :: IsDigit(s[i])
  }
}
