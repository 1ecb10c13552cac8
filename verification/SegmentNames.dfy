/** The names of rotated log segments (src/data_olympus/audit_log.py:100-118) and how they sort. */
module SegmentNames {
  import opened Lexical

  /** A UTC instant as `time.gmtime` breaks it down, with the microseconds beside it. */
  datatype Instant = Instant(year: nat, month: nat, day: nat, hour: nat, minute: nat, second: nat, micros: nat)

  predicate OnClock(t: Instant) {
    t.year < 10000 && t.month < 100 && t.day < 100 && t.hour < 100 && t.minute < 100 && t.second < 100 &&
      t.micros < 1000000
  }

  /** The instant's digits read as one number: later instants have larger ones. */
  function Number(t: Instant): nat {
    DateNumber(t) * 1000000000000 + TimeNumber(t)
  }

  function DateNumber(t: Instant): nat {
    (t.year * 100 + t.month) * 100 + t.day
  }

  function TimeNumber(t: Instant): nat {
    ((t.hour * 100 + t.minute) * 100 + t.second) * 1000000 + t.micros
  }

  function Digit(d: nat): char
    requires d < 10
  {
    '0' + d as char
  }

  /** Zero-padded decimal digits. */
  function Padded(n: nat, width: nat): string {
    if width == 0 then "" else Padded(n / 10, width - 1) + [Digit(n % 10)]
  }

  function Decimal(n: nat): string {
    if n < 10 then [Digit(n)] else Decimal(n / 10) + [Digit(n % 10)]
  }

  const YEAR := 4
  const PAIR := 2
  const MICROS := 6

  /** `%Y%m%dT%H%M%S` and six digits of microseconds, followed by `rest`. */
  function Stamped(t: Instant, rest: string): string {
    Padded(t.year, YEAR) + (Padded(t.month, PAIR) + (Padded(t.day, PAIR) + ("T" + TimeStamped(t, rest))))
  }

  function TimeStamped(t: Instant, rest: string): string {
    Padded(t.hour, PAIR) + (Padded(t.minute, PAIR) + (Padded(t.second, PAIR) + (Padded(t.micros, MICROS) + rest)))
  }

  /** Where the log lives: `os.path.splitext` gives an empty suffix or one that starts with a dot. */
  datatype Place = Place(stem: string, suffix: string)

  predicate Splits(place: Place) {
    place.suffix == "" || place.suffix[0] == '.'
  }

  function LiveName(place: Place): string {
    place.stem + place.suffix
  }

  function Tail(place: Place, n: nat): string {
    (if n == 0 then "" else "-" + Decimal(n)) + place.suffix
  }

  /** The `n`-th candidate name for a segment rotated out at `t`. */
  function SegmentName(place: Place, t: Instant, n: nat): string {
    place.stem + ("-" + Stamped(t, Tail(place, n)))
  }

  /** What the glob pattern `<stem>-*<suffix>` matches. */
  predicate IsSegment(place: Place, name: string) {
    && |name| >= |place.stem| + 1 + |place.suffix|
    && name[..|place.stem|] == place.stem && name[|place.stem|] == '-'
    && name[|name| - |place.suffix|..] == place.suffix
  }

  // ---- Digits sort as numbers --------------------------------------------------------------

  function Pow10(w: nat): nat {
    if w == 0 then 1 else 10 * Pow10(w - 1)
  }

  lemma {:induction false} PaddedLength(n: nat, w: nat)
    ensures |Padded(n, w)| == w
  {
    if w > 0 {
      PaddedLength(n / 10, w - 1);
    }
  }

  lemma {:induction false} PaddedOrder(a: nat, b: nat, w: nat)
    requires a < b < Pow10(w)
    ensures Before(Padded(a, w), Padded(b, w))
  {
    var x, y, d, e := TenSplit(a, b, Pow10(w - 1));
    PaddedLength(x, w - 1);
    PaddedLength(y, w - 1);
    if x < y {
      PaddedOrder(x, y, w - 1);
      BeforeExtends(Padded(x, w - 1), Padded(y, w - 1), [Digit(d)], [Digit(e)]);
    } else {
      DigitOrder(d, e);
      BeforeCommon(Padded(x, w - 1), [Digit(d)], [Digit(e)]);
    }
  }

  lemma TenSplit(a: nat, b: nat, p: nat) returns (x: nat, y: nat, d: nat, e: nat)
    requires a < b < 10 * p
    ensures x == a / 10 && y == b / 10 && d == a % 10 && e == b % 10
    ensures x < p && y < p && (x < y || (x == y && d < e)) && d < 10 && e < 10
  {
    x, y, d, e := a / 10, b / 10, a % 10, b % 10;
  }

  lemma DigitOrder(d: nat, e: nat)
    requires d < e < 10
    ensures Before([Digit(d)], [Digit(e)])
  {
  }

  /** One field: the larger number sorts later, and equal numbers leave the decision to what follows. */
  lemma FieldOrder(a: nat, b: nat, w: nat, x: string, y: string)
    requires a < Pow10(w) && b < Pow10(w)
    ensures Before(Padded(a, w) + x, Padded(b, w) + y) <==> a < b || (a == b && Before(x, y))
  {
    PaddedLength(a, w);
    PaddedLength(b, w);
    NeverBoth(Padded(a, w) + x, Padded(b, w) + y);
    if a < b {
      PaddedOrder(a, b, w);
      BeforeExtends(Padded(a, w), Padded(b, w), x, y);
    } else if b < a {
      PaddedOrder(b, a, w);
      BeforeExtends(Padded(b, w), Padded(a, w), y, x);
    } else {
      BeforeCommon(Padded(a, w), x, y);
    }
  }

  lemma Powers()
    ensures Pow10(PAIR) == 100 && Pow10(YEAR) == 10000 && Pow10(MICROS) == 1000000
  {
    assert Pow10(3) == 1000 && Pow10(5) == 100000;
  }

  lemma TimesSortAsNumbers(t: Instant, u: Instant, x: string, y: string)
    requires OnClock(t) && OnClock(u)
    ensures Before(TimeStamped(t, x), TimeStamped(u, y)) <==>
            TimeNumber(t) < TimeNumber(u) || (TimeNumber(t) == TimeNumber(u) && Before(x, y))
  {
    Powers();
    var t6, u6 := Padded(t.micros, MICROS) + x, Padded(u.micros, MICROS) + y;
    var t5, u5 := Padded(t.second, PAIR) + t6, Padded(u.second, PAIR) + u6;
    FieldOrder(t.micros, u.micros, MICROS, x, y);
    FieldOrder(t.second, u.second, PAIR, t6, u6);
    FieldOrder(t.minute, u.minute, PAIR, t5, u5);
    FieldOrder(t.hour, u.hour, PAIR, Padded(t.minute, PAIR) + t5, Padded(u.minute, PAIR) + u5);
  }

  /** Fixed-width timestamps sort as their numbers. */
  lemma StampsSortAsNumbers(t: Instant, u: Instant, x: string, y: string)
    requires OnClock(t) && OnClock(u)
    ensures Before(Stamped(t, x), Stamped(u, y)) <==> Number(t) < Number(u) || (Number(t) == Number(u) && Before(x, y))
  {
    Powers();
    var t3, u3 := TimeStamped(t, x), TimeStamped(u, y);
    TimesSortAsNumbers(t, u, x, y);
    BeforeCommon("T", t3, u3);
    FieldOrder(t.day, u.day, PAIR, "T" + t3, "T" + u3);
    FieldOrder(t.month, u.month, PAIR, Padded(t.day, PAIR) + ("T" + t3), Padded(u.day, PAIR) + ("T" + u3));
    DatesSort(t, u, Padded(t.month, PAIR) + (Padded(t.day, PAIR) + ("T" + t3)),
              Padded(u.month, PAIR) + (Padded(u.day, PAIR) + ("T" + u3)));
    assert TimeNumber(t) < 1000000000000 && TimeNumber(u) < 1000000000000;
  }

  lemma DatesSort(t: Instant, u: Instant, x: string, y: string)
    requires OnClock(t) && OnClock(u)
    ensures Before(Padded(t.year, YEAR) + x, Padded(u.year, YEAR) + y) <==>
              t.year < u.year || (t.year == u.year && Before(x, y))
  {
    Powers();
    FieldOrder(t.year, u.year, YEAR, x, y);
  }

  lemma PairsOf100(a: nat, b: nat, c: nat, d: nat)
    requires a * 100 + b == c * 100 + d && b < 100 && d < 100
    ensures a == c && b == d
  {
  }

  lemma TimeIsInjective(t: Instant, u: Instant)
    requires OnClock(t) && OnClock(u) && TimeNumber(t) == TimeNumber(u)
    ensures t.hour == u.hour && t.minute == u.minute && t.second == u.second && t.micros == u.micros
  {
    var x, y := (t.hour * 100 + t.minute) * 100 + t.second, (u.hour * 100 + u.minute) * 100 + u.second;
    assert x * 1000000 + t.micros == y * 1000000 + u.micros;
    assert x == y;
    PairsOf100(t.hour * 100 + t.minute, t.second, u.hour * 100 + u.minute, u.second);
    PairsOf100(t.hour, t.minute, u.hour, u.minute);
  }

  lemma DatesAndTimes(a: nat, b: nat, c: nat, d: nat)
    requires a * 1000000000000 + b == c * 1000000000000 + d && b < 1000000000000 && d < 1000000000000
    ensures a == c && b == d
  {
  }

  lemma NumberIsInjective(t: Instant, u: Instant)
    requires OnClock(t) && OnClock(u) && Number(t) == Number(u)
    ensures t == u
  {
    DatesAndTimes(DateNumber(t), TimeNumber(t), DateNumber(u), TimeNumber(u));
    TimeIsInjective(t, u);
    PairsOf100(t.year * 100 + t.month, t.day, u.year * 100 + u.month, u.day);
    PairsOf100(t.year, t.month, u.year, u.month);
  }

  lemma {:induction false} DecimalIsInjective(n: nat, m: nat)
    requires Decimal(n) == Decimal(m)
    ensures n == m
  {
    var x, y := Decimal(n), Decimal(m);
    assert x[|x| - 1] == Digit(n % 10) && y[|y| - 1] == Digit(m % 10);
    if n >= 10 || m >= 10 {
      DecimalNonEmpty(n / 10);
      DecimalNonEmpty(m / 10);
      assert n >= 10 && m >= 10;
      assert x[..|x| - 1] == Decimal(n / 10) && y[..|y| - 1] == Decimal(m / 10);
      DecimalIsInjective(n / 10, m / 10);
    }
  }

  lemma DecimalNonEmpty(n: nat)
    ensures Decimal(n) != ""
  {
  }

  lemma SegmentsSort(place: Place, t: Instant, n: nat, u: Instant, m: nat)
    requires OnClock(t) && OnClock(u)
    ensures Before(SegmentName(place, t, n), SegmentName(place, u, m)) <==>
            Number(t) < Number(u) || (Number(t) == Number(u) && Before(Tail(place, n), Tail(place, m)))
  {
    BeforeCommon(place.stem, "-" + Stamped(t, Tail(place, n)), "-" + Stamped(u, Tail(place, m)));
    BeforeCommon("-", Stamped(t, Tail(place, n)), Stamped(u, Tail(place, m)));
    StampsSortAsNumbers(t, u, Tail(place, n), Tail(place, m));
  }

  /** Within one instant the numbered names sort before the plain one: `-` comes before `.`. */
  lemma NumberedSortsFirst(place: Place, t: Instant, n: nat)
    requires Splits(place) && place.suffix != "" && OnClock(t) && n > 0
    ensures Before(SegmentName(place, t, n), SegmentName(place, t, 0))
  {
    HyphenBeforeDot(place, n);
    SegmentsSort(place, t, n, t, 0);
  }

  lemma HyphenBeforeDot(place: Place, n: nat)
    requires Splits(place) && place.suffix != "" && n > 0
    ensures Before(Tail(place, n), Tail(place, 0))
  {
    assert Tail(place, n)[0] == '-' && Tail(place, 0)[0] == '.';
  }

  /** Without a suffix it is the other way round: the plain name is the beginning of the numbered one. */
  lemma PlainSortsFirst(place: Place, t: Instant, n: nat)
    requires place.suffix == "" && OnClock(t) && n > 0
    ensures Before(SegmentName(place, t, 0), SegmentName(place, t, n))
  {
    assert Tail(place, 0) == "" && Tail(place, n)[0] == '-';
    SegmentsSort(place, t, 0, t, n);
  }

  /** Without a suffix the first ten names of an instant sort in turn, and the eleventh before the third. */
  lemma TailsInTurn(place: Place, n: nat, m: nat)
    requires place.suffix == ""
    ensures n < m < 10 ==> Before(Tail(place, n), Tail(place, m))
    ensures Before(Tail(place, 10), Tail(place, 2))
  {
    assert Tail(place, 10) == "-10" && Tail(place, 2) == "-2";
    BeforeCommon("-", "10", "2");
    if 0 < n < m < 10 {
      assert Tail(place, n) == "-" + [Digit(n)] && Tail(place, m) == "-" + [Digit(m)];
      BeforeCommon("-", [Digit(n)], [Digit(m)]);
    }
  }

  lemma NamesAreDistinct(place: Place, t: Instant, n: nat, u: Instant, m: nat)
    requires OnClock(t) && OnClock(u) && SegmentName(place, t, n) == SegmentName(place, u, m)
    ensures t == u && n == m
  {
    BeforeIsTotal();
    SegmentsSort(place, t, n, u, m);
    SegmentsSort(place, u, m, t, n);
    NumberIsInjective(t, u);
    TailsSort(place, n, m);
  }

  lemma TailsSort(place: Place, n: nat, m: nat)
    ensures n != m ==> Before(Tail(place, n), Tail(place, m)) || Before(Tail(place, m), Tail(place, n))
  {
    BeforeIsTotal();
    if Tail(place, n) == Tail(place, m) {
      assert |Tail(place, n)| == |Tail(place, m)|;
      var k := |Tail(place, n)| - |place.suffix|;
      assert Tail(place, n)[..k] == Tail(place, m)[..k];
      if n > 0 && m > 0 {
        assert Tail(place, n)[1..k] == Decimal(n) && Tail(place, m)[1..k] == Decimal(m);
        DecimalIsInjective(n, m);
      }
    }
  }

  lemma StampedEnds(t: Instant, x: string, y: string)
    ensures Stamped(t, x + y) == Stamped(t, x) + y
  {
    assert Padded(t.micros, MICROS) + (x + y) == (Padded(t.micros, MICROS) + x) + y;
    assert TimeStamped(t, x + y) == TimeStamped(t, x) + y;
    assert ("T" + TimeStamped(t, x)) + y == "T" + (TimeStamped(t, x) + y);
  }

  /** A segment's name matches the pattern, and the live file's does not. */
  lemma SegmentsMatch(place: Place, t: Instant, n: nat)
    ensures IsSegment(place, SegmentName(place, t, n)) && !IsSegment(place, LiveName(place))
  {
    var numbering := if n == 0 then "" else "-" + Decimal(n);
    StampedEnds(t, numbering, place.suffix);
    var name := SegmentName(place, t, n);
    var body := place.stem + ("-" + Stamped(t, numbering));
    assert name == body + place.suffix;
  }

  /** Later instants, field by field, have larger numbers. */
  lemma NumberOrders(t: Instant, u: Instant)
    requires OnClock(t) && OnClock(u)
    ensures Number(t) < Number(u) <==> Earlier(t, u)
  {
    TwoDigits(t.year, t.month, u.year, u.month);
    TwoDigits(t.year * 100 + t.month, t.day, u.year * 100 + u.month, u.day);
    TwoDigits(t.hour, t.minute, u.hour, u.minute);
    TwoDigits(t.hour * 100 + t.minute, t.second, u.hour * 100 + u.minute, u.second);
  }

  lemma TwoDigits(a: nat, b: nat, c: nat, d: nat)
    requires b < 100 && d < 100
    ensures a * 100 + b < c * 100 + d <==> a < c || (a == c && b < d)
    ensures a * 100 + b == c * 100 + d <==> a == c && b == d
  {
  }

  predicate Earlier(t: Instant, u: Instant) {
    if t.year != u.year then t.year < u.year
    else if t.month != u.month then t.month < u.month
    else if t.day != u.day then t.day < u.day
    else if t.hour != u.hour then t.hour < u.hour
    else if t.minute != u.minute then t.minute < u.minute
    else if t.second != u.second then t.second < u.second
    else t.micros < u.micros
  }

  /** A segment's name is the stem, a hyphen, anything, and the suffix. */
  lemma IsSegmentMeans(place: Place, name: string)
    ensures IsSegment(place, name) <==> exists middle :: name == place.stem + "-" + middle + place.suffix
  {
    var n, m := |place.stem|, |name| - |place.suffix|;
    if IsSegment(place, name) {
      assert name == name[..n] + [name[n]] + name[n + 1..m] + name[m..];
    }
    if middle :| name == place.stem + "-" + middle + place.suffix {
      assert name[..n] == place.stem && name[n] == '-' && name[m..] == place.suffix;
    }
  }
}
