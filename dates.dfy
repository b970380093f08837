/** Calendar dates as the streak tracker stores them: the `YYYY-MM-DD` part of
    `Date.prototype.toISOString`, compared with JavaScript's string `<`.
    The main result, `IsoDateOrder`, shows that this string order is the
    calendar order, which lets the tracker itself work on day numbers. */
module Dates {
  import opened Common

  function Pow10(w: nat): (r: nat)
    ensures r >= 1
  {
    if w == 0 then 1 else 10 * Pow10(w - 1)
  }

  /** `n` written with exactly `width` digits, zero-padded on the left. */
  function Pad(n: nat, width: nat): (r: string)
    requires n < Pow10(width)
    ensures |r| == width && AllDigits(r)
  {
    if width == 0 then [] else Pad(n / 10, width - 1) + [DigitChar(n % 10)]
  }

  /** The date part of an ISO 8601 timestamp for year `y`, month `m`, day `d`. */
  function IsoDate(y: nat, m: nat, d: nat): (r: string)
    requires y < 10000 && m < 100 && d < 100
    ensures |r| == 10 && AllDigits(r[..4]) && r[4] == '-' && AllDigits(r[5..7]) && r[7] == '-' && AllDigits(r[8..])
  {
    Pad(y, 4) + "-" + MonthDay(m, d)
  }

  function MonthDay(m: nat, d: nat): (r: string)
    requires m < 100 && d < 100
    ensures |r| == 5
  {
    Pad(m, 2) + "-" + Pad(d, 2)
  }

  /** JavaScript's `<` on strings: the first differing character decides, and a
      proper prefix comes first. */
  predicate LexLess(a: string, b: string)
  {
    if a == [] then b != []
    else if b == [] then false
    else if a[0] != b[0] then a[0] < b[0]
    else LexLess(a[1..], b[1..])
  }

  /** Comparing two concatenations whose first parts have equal length compares
      the first parts, and only on a tie the second parts. */
  lemma {:induction false} LexLessAppend(x: string, y: string, u: string, v: string)
    requires |x| == |y|
    ensures LexLess(x + u, y + v) <==> LexLess(x, y) || (x == y && LexLess(u, v))
  {
    if x != [] {
      assert (x + u)[1..] == x[1..] + u;
      assert (y + v)[1..] == y[1..] + v;
      LexLessAppend(x[1..], y[1..], u, v);
      if x[0] == y[0] {
        assert x == y <==> x[1..] == y[1..];
      }
    } else {
      assert x + u == u && y + v == v;
    }
  }

  /** Zero-padded numbers of one width compare as strings the way they compare as numbers. */
  lemma {:induction false} PadOrder(a: nat, b: nat, w: nat)
    requires a < Pow10(w) && b < Pow10(w)
    ensures LexLess(Pad(a, w), Pad(b, w)) <==> a < b
    ensures Pad(a, w) == Pad(b, w) <==> a == b
  {
    if w > 0 {
      PadOrder(a / 10, b / 10, w - 1);
      LexLessAppend(Pad(a / 10, w - 1), Pad(b / 10, w - 1), [DigitChar(a % 10)], [DigitChar(b % 10)]);
      var pa, pb := Pad(a, w), Pad(b, w);
      if pa == pb {
        assert pa[..w - 1] == pb[..w - 1] && pa[w - 1] == pb[w - 1];
        assert Pad(a / 10, w - 1) == pa[..w - 1];
        assert Pad(b / 10, w - 1) == pb[..w - 1];
      }
    }
  }

  /** Two strings joined by `-` after equal-length heads compare head first. */
  lemma DashJoinOrder(p1: string, p2: string, r1: string, r2: string)
    requires |p1| == |p2|
    ensures LexLess(p1 + "-" + r1, p2 + "-" + r2) <==> LexLess(p1, p2) || (p1 == p2 && LexLess(r1, r2))
    ensures p1 + "-" + r1 == p2 + "-" + r2 <==> p1 == p2 && r1 == r2
  {
    LexLessAppend(p1, p2, "-" + r1, "-" + r2);
    assert p1 + "-" + r1 == p1 + ("-" + r1);
    assert p2 + "-" + r2 == p2 + ("-" + r2);
    assert ("-" + r1)[1..] == r1 && ("-" + r2)[1..] == r2;
    if p1 + "-" + r1 == p2 + "-" + r2 {
      assert (p1 + "-" + r1)[..|p1|] == p1 && (p2 + "-" + r2)[..|p2|] == p2;
      assert (p1 + "-" + r1)[|p1| + 1..] == r1 && (p2 + "-" + r2)[|p2| + 1..] == r2;
    }
  }

  lemma MonthDayOrder(m1: nat, d1: nat, m2: nat, d2: nat)
    requires m1 < 100 && d1 < 100 && m2 < 100 && d2 < 100
    ensures LexLess(MonthDay(m1, d1), MonthDay(m2, d2)) <==> m1 < m2 || (m1 == m2 && d1 < d2)
    ensures MonthDay(m1, d1) == MonthDay(m2, d2) <==> m1 == m2 && d1 == d2
  {
    PadOrder(m1, m2, 2);
    PadOrder(d1, d2, 2);
    DashJoinOrder(Pad(m1, 2), Pad(m2, 2), Pad(d1, 2), Pad(d2, 2));
  }

  /** On well-formed dates, string order is calendar order and string equality is date equality. */
  lemma IsoDateOrder(y1: nat, m1: nat, d1: nat, y2: nat, m2: nat, d2: nat)
    requires y1 < 10000 && m1 < 100 && d1 < 100
    requires y2 < 10000 && m2 < 100 && d2 < 100
    ensures LexLess(IsoDate(y1, m1, d1), IsoDate(y2, m2, d2))
            <==> y1 < y2 || (y1 == y2 && (m1 < m2 || (m1 == m2 && d1 < d2)))
    ensures IsoDate(y1, m1, d1) == IsoDate(y2, m2, d2) <==> y1 == y2 && m1 == m2 && d1 == d2
  {
    PadOrder(y1, y2, 4);
    MonthDayOrder(m1, d1, m2, d2);
    DashJoinOrder(Pad(y1, 4), Pad(y2, 4), MonthDay(m1, d1), MonthDay(m2, d2));
  }

  /** `s.split("T")[0]`: everything before the first `T`. */
  function BeforeT(s: string): (r: string)
    ensures 'T' !in r && StartsWith(s, r)
    ensures |r| < |s| ==> s[|r|] == 'T'
  {
    if s == [] || s[0] == 'T' then [] else [s[0]] + BeforeT(s[1..])
  }

  /** `getDateString`: the date part of an ISO timestamp `YYYY-MM-DDTHH:mm:ss.sssZ`
      is exactly the `YYYY-MM-DD` prefix. */
  lemma DateStringOfTimestamp(y: nat, m: nat, d: nat, time: string)
    requires y < 10000 && m < 100 && d < 100
    ensures BeforeT(IsoDate(y, m, d) + "T" + time) == IsoDate(y, m, d)
  {
    var date := IsoDate(y, m, d);
    var s := date + "T" + time;
    var r := BeforeT(s);
    assert forall k :: 0 <= k < 10 ==> date[k] != 'T';
    assert s[10] == 'T';
    assert |r| <= 10;
    assert r == s[..|r|];
    assert s[..10] == date;
  }
}
