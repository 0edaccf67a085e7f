/** Calendar arithmetic behind the daily indices and the monthly partitions. */
module Calendar {
  import opened Wrappers

  datatype Date = Date(y: int, m: int, d: int)

  predicate Leap(y: int) { y % 4 == 0 && (y % 100 != 0 || y % 400 == 0) }

  function DaysInMonth(y: int, m: int): int {
    if m == 2 then (if Leap(y) then 29 else 28)
    else if m == 4 || m == 6 || m == 9 || m == 11 then 30 else 31
  }

  /** The Gregorian rule and the lengths of the months. */
  lemma MonthLengths()
    ensures Leap(2024) && Leap(2000) && !Leap(2023) && !Leap(1900)
    ensures forall y :: DaysInMonth(y, 2) == if Leap(y) then 29 else 28
    ensures forall y, m | m in {1, 3, 5, 7, 8, 10, 12} :: DaysInMonth(y, m) == 31
    ensures forall y, m | m in {4, 6, 9, 11} :: DaysInMonth(y, m) == 30
  {
  }

  predicate Valid(x: Date) {
    1 <= x.m <= 12 && 1 <= x.d <= DaysInMonth(x.y, x.m)
  }

  predicate Before(a: Date, b: Date) {
    a.y < b.y || (a.y == b.y && (a.m < b.m || (a.m == b.m && a.d < b.d)))
  }

  // ----- daily index names ------------------------------------------------------

  const DIGITS := "0123456789"

  function Two(n: nat): string
    requires n < 100
  {
    [DIGITS[n / 10], DIGITS[n % 10]]
  }

  function Four(n: nat): string
    requires n < 10000
  {
    Two(n / 100) + Two(n % 100)
  }

  /** Years `datetime` can hold. */
  predicate Printable(x: Date) { Valid(x) && 1 <= x.y <= 9999 }

  function IsoDate(x: Date): string
    requires Printable(x)
  {
    Four(x.y) + "-" + Two(x.m) + "-" + Two(x.d)
  }

  function Dotted(s: string): (r: string)
    ensures |r| == |s| && forall i | 0 <= i < |s| :: r[i] == (if s[i] == '-' then '.' else s[i])
  {
    seq(|s|, i requires 0 <= i < |s| => if s[i] == '-' then '.' else s[i])
  }

  function DailyIndex(base: string, archivedAt: string): string {
    var d := Dotted(archivedAt[..Min(10, |archivedAt|)]);
    if |d| == 10 then base + "-" + d else base + "-unknown"
  }

  function Digit(c: char): Option<nat> {
    if '0' <= c <= '9' then Some(c as nat - '0' as nat) else None
  }

  function Number(s: string): Option<nat> {
    if s == "" then Some(0)
    else
      var init, last := Number(s[..|s| - 1]), Digit(s[|s| - 1]);
      if init.None? || last.None? then None else Some(init.value * 10 + last.value)
  }

  /** strptime with "%Y.%m.%d" on zero-padded fields. */
  function ParseDay(s: string): Option<Date> {
    if |s| != 10 || s[4] != '.' || s[7] != '.' then None
    else
      var y, m, d := Number(s[..4]), Number(s[5..7]), Number(s[8..]);
      if y.None? || m.None? || d.None? then None
      else if Printable(Date(y.value, m.value, d.value)) then Some(Date(y.value, m.value, d.value)) else None
  }

  /** `_drop_old_indices` cuts the prefix off by length. */
  function IndexDay(base: string, name: string): Option<Date> {
    ParseDay(name[Min(|base| + 1, |name|)..])
  }

  lemma DigitBack(n: nat)
    requires n < 10
    ensures Digit(DIGITS[n]) == Some(n) && DIGITS[n] != '-' && DIGITS[n] != '.'
  {
  }

  lemma TwoBack(n: nat)
    requires n < 100
    ensures Number(Two(n)) == Some(n) && '-' !in Two(n)
  {
    DigitBack(n / 10);
    DigitBack(n % 10);
    var s := Two(n);
    assert s[..1] == [DIGITS[n / 10]] && s[..1][..0] == "";
    assert Number(s[..1]) == Some(n / 10);
  }

  lemma NumberAppend(s: string, c: char, n: nat, k: nat)
    requires Number(s) == Some(n) && Digit(c) == Some(k)
    ensures Number(s + [c]) == Some(n * 10 + k)
  {
  }

  lemma FourBack(n: nat)
    requires n < 10000
    ensures Number(Four(n)) == Some(n) && '-' !in Four(n) && |Four(n)| == 4
  {
    var hi, tens, ones := n / 100, n % 100 / 10, n % 100 % 10;
    TwoBack(hi);
    TwoBack(n % 100);
    DigitBack(tens);
    DigitBack(ones);
    NumberAppend(Two(hi), DIGITS[tens], hi, tens);
    NumberAppend(Two(hi) + [DIGITS[tens]], DIGITS[ones], hi * 10 + tens, ones);
    assert Four(n) == Two(hi) + [DIGITS[tens]] + [DIGITS[ones]];
  }

  lemma DottedKeeps(s: string)
    requires '-' !in s
    ensures Dotted(s) == s
  {
  }

  lemma DottedConcat(a: string, b: string)
    ensures Dotted(a + b) == Dotted(a) + Dotted(b)
  {
  }

  lemma DottedIso(x: Date)
    requires Printable(x)
    ensures |IsoDate(x)| == 10
    ensures Dotted(IsoDate(x)) == Four(x.y) + "." + Two(x.m) + "." + Two(x.d)
  {
    FourBack(x.y);
    TwoBack(x.m);
    TwoBack(x.d);
    DottedKeeps(Four(x.y));
    DottedKeeps(Two(x.m));
    DottedKeeps(Two(x.d));
    assert Dotted("-") == ".";
    DottedConcat(Four(x.y) + "-" + Two(x.m) + "-", Two(x.d));
    DottedConcat(Four(x.y) + "-" + Two(x.m), "-");
    DottedConcat(Four(x.y) + "-", Two(x.m));
    DottedConcat(Four(x.y), "-");
  }

  lemma DayBack(x: Date)
    requires Printable(x)
    ensures ParseDay(Four(x.y) + "." + Two(x.m) + "." + Two(x.d)) == Some(x)
  {
    FourBack(x.y);
    TwoBack(x.m);
    TwoBack(x.d);
    var s := Four(x.y) + "." + Two(x.m) + "." + Two(x.d);
    assert s[..4] == Four(x.y) && s[5..7] == Two(x.m) && s[8..] == Two(x.d);
  }

  /** What a name looks like. */
  lemma NameOfFifthOfMarch()
    ensures DailyIndex("messages", "2024-03-05T10:00:00+00:00") == "messages-2024.03.05"
    ensures IsoDate(Date(2024, 3, 5)) == "2024-03-05"
    ensures IndexDay("messages", "messages-2024.03.05") == Some(Date(2024, 3, 5))
  {
    var x := Date(2024, 3, 5);
    assert IsoDate(x) == "2024-03-05";
    DottedIso(x);
    DayBack(x);
    assert "2024-03-05T10:00:00+00:00"[..10] == IsoDate(x);
    assert Four(2024) + "." + Two(3) + "." + Two(5) == "2024.03.05";
    assert "messages-2024.03.05"[9..] == "2024.03.05";
    assert "messages" + "-" + "2024.03.05" == "messages-2024.03.05";
  }

  /** The retention parser recovers the day the indexer printed, whatever follows it in
      the timestamp; so two documents share an index exactly when they share a day. */
  lemma ParserRecoversDay(base: string, x: Date, rest: string)
    requires Printable(x)
    ensures IndexDay(base, DailyIndex(base, IsoDate(x) + rest)) == Some(x)
  {
    DottedIso(x);
    DayBack(x);
    assert (IsoDate(x) + rest)[..10] == IsoDate(x);
    var name := DailyIndex(base, IsoDate(x) + rest);
    assert name[|base| + 1..] == Dotted(IsoDate(x));
  }

  lemma SameIndexSameDay(base: string, x: Date, restX: string, z: Date, restZ: string)
    requires Printable(x) && Printable(z)
    ensures DailyIndex(base, IsoDate(x) + restX) == DailyIndex(base, IsoDate(z) + restZ) <==> x == z
  {
    ParserRecoversDay(base, x, restX);
    ParserRecoversDay(base, z, restZ);
    if x == z {
      assert (IsoDate(x) + restX)[..10] == IsoDate(x);
      assert (IsoDate(x) + restZ)[..10] == IsoDate(x);
      DottedIso(x);
    }
  }

  /** The catch-all index is never dropped. */
  lemma UnknownIsKept(base: string, archivedAt: string)
    requires |archivedAt| < 10
    ensures IndexDay(base, DailyIndex(base, archivedAt)) == None
  {
  }

  /** A UTC instant: day and second of the day. */
  datatype Instant = Instant(date: Date, second: nat)

  predicate Earlier(a: Instant, b: Instant) {
    Before(a.date, b.date) || (a.date == b.date && a.second < b.second)
  }

  /** Retention deletes the index. */
  predicate Dropped(base: string, name: string, cutoff: Instant) {
    var day := IndexDay(base, name);
    day.Some? && Before(day.value, cutoff.date)
  }

  /** An index is dropped only when everything filed in it is past the cutoff; what is
      past the cutoff and stays searchable was signed on the cutoff day itself. */
  lemma DropIsSound(base: string, signed: Instant, rest: string, cutoff: Instant)
    requires Printable(signed.date)
    ensures var name := DailyIndex(base, IsoDate(signed.date) + rest);
            && (Dropped(base, name, cutoff) ==> Earlier(signed, cutoff))
            && (Earlier(signed, cutoff) && !Dropped(base, name, cutoff) <==>
                  signed.date == cutoff.date && signed.second < cutoff.second)
  {
    ParserRecoversDay(base, signed.date, rest);
  }

  // ----- monthly partitions --------------------------------------------------------

  function MonthIndex(x: Date): int { x.y * 12 + x.m - 1 }

  function FirstOf(month: int): Date { Date(month / 12, month % 12 + 1, 1) }

  /** date + 'k month': the day is clamped to the length of the target month. */
  function AddMonths(x: Date, k: int): Date {
    var first := FirstOf(MonthIndex(x) + k);
    Date(first.y, first.m, Min(x.d, DaysInMonth(first.y, first.m)))
  }

  /** FOR VALUES FROM (lo) TO (hi), hi excluded. */
  datatype Range = Range(lo: Date, hi: Date)

  function PartitionOf(p: Date): Range {
    var s := FirstOf(MonthIndex(p));
    Range(s, AddMonths(s, 1))
  }

  predicate In(x: Date, r: Range) { !Before(x, r.lo) && Before(x, r.hi) }

  lemma AddMonthsMoves(x: Date, k: int)
    requires Valid(x)
    ensures Valid(AddMonths(x, k)) && MonthIndex(AddMonths(x, k)) == MonthIndex(x) + k
    ensures AddMonths(x, k).y * 12 + AddMonths(x, k).m == x.y * 12 + x.m + k
    ensures AddMonths(x, k).d <= x.d
    ensures AddMonths(x, k).d < x.d ==> !Valid(AddMonths(x, k).(d := AddMonths(x, k).d + 1))
  {
  }

  /** A partition holds exactly the days of its month. */
  lemma PartitionIsMonth(p: Date, x: Date)
    requires Valid(p) && Valid(x)
    ensures In(x, PartitionOf(p)) <==> MonthIndex(x) == MonthIndex(p)
    ensures In(x, PartitionOf(p)) <==> x.y == p.y && x.m == p.m
  {
  }

  /** The partitions of `messages`, by the month their name states. */
  type Partitions = map<int, Range>

  /** CREATE TABLE IF NOT EXISTS for one month. */
  function EnsureMonth(ps: Partitions, month: int): Partitions {
    if month in ps then ps else ps[month := PartitionOf(FirstOf(month))]
  }

  function EnsureMonths(ps: Partitions, first: int, n: nat): Partitions {
    if n == 0 then ps else EnsureMonth(EnsureMonths(ps, first, n - 1), first + n - 1)
  }

  class Schema {
    var partitions: Partitions

    constructor ()
      ensures partitions == map[]
    {
      partitions := map[];
    }

    /** `ensure_message_partition` */
    method EnsurePartition(p: Date)
      requires Valid(p)
      modifies this
      ensures partitions == EnsureMonth(old(partitions), MonthIndex(p))
    {
      assert FirstOf(MonthIndex(p)) == Date(p.y, p.m, 1);
      if MonthIndex(p) !in partitions {
        partitions := partitions[MonthIndex(p) := PartitionOf(p)];
      }
    }

    /** The partition loop of `ensure_schema` on the day `now`. */
    method Startup(now: Date)
      requires Valid(now)
      modifies this
      ensures partitions == EnsureMonths(old(partitions), MonthIndex(now), 3)
    {
      for offset := 0 to 3
        invariant partitions == EnsureMonths(old(partitions), MonthIndex(now), offset)
      {
        AddMonthsMoves(now, offset);
        EnsurePartition(AddMonths(now, offset));
      }
    }
  }

  ghost predicate PartitionAt(ps: Partitions, k: int)
    requires k in ps
  {
    ps[k] == PartitionOf(FirstOf(k))
  }

  /** Every partition is the one its name promises. */
  ghost predicate Named(ps: Partitions) {
    forall k | k in ps :: PartitionAt(ps, k)
  }

  /** A startup on `day` ensures the month `k`. */
  predicate Covers(day: Date, k: int) { MonthIndex(day) <= k < MonthIndex(day) + 3 }

  /** The startups, in any order and on any days. */
  function Startups(days: seq<Date>): Partitions {
    if days == [] then map[] else EnsureMonths(Startups(days[..|days| - 1]), MonthIndex(days[|days| - 1]), 3)
  }

  lemma {:induction false} MonthsNamed(ps: Partitions, first: int, n: nat)
    requires Named(ps)
    ensures Named(EnsureMonths(ps, first, n))
    ensures forall k :: k in EnsureMonths(ps, first, n) <==> k in ps || first <= k < first + n
  {
    if n > 0 {
      MonthsNamed(ps, first, n - 1);
      var mid, r := EnsureMonths(ps, first, n - 1), EnsureMonths(ps, first, n);
      forall k | k in r ensures PartitionAt(r, k) {
        if k in mid { assert PartitionAt(mid, k); }
      }
    }
  }

  lemma {:induction false} StartupsNamed(days: seq<Date>)
    ensures Named(Startups(days))
    ensures forall k :: k in Startups(days) <==> exists i | 0 <= i < |days| :: Covers(days[i], k)
  {
    if days != [] {
      var n := |days| - 1;
      StartupsNamed(days[..n]);
      MonthsNamed(Startups(days[..n]), MonthIndex(days[n]), 3);
      forall k ensures k in Startups(days) <==> exists i | 0 <= i < |days| :: Covers(days[i], k) {
        if k in Startups(days[..n]) {
          var i :| 0 <= i < n && Covers(days[..n][i], k);
          assert days[i] == days[..n][i];
        }
        if i :| 0 <= i < |days| && Covers(days[i], k) {
          if i < n { assert days[..n][i] == days[i]; }
        }
      }
    }
  }

  /** Whatever days the services started on: a day lies in the partition of its own month
      and in no other, and it has one exactly when some startup fell in its month or one
      of the two before. So partitions never overlap and a startup leaves no gap. */
  lemma OnePartitionPerDay(days: seq<Date>, x: Date)
    requires Valid(x)
    ensures var ps := Startups(days);
            && (forall k | k in ps :: In(x, ps[k]) <==> k == MonthIndex(x))
            && ((exists k | k in ps :: In(x, ps[k])) <==>
                (exists i | 0 <= i < |days| :: Covers(days[i], MonthIndex(x))))
  {
    var ps := Startups(days);
    StartupsNamed(days);
    forall k | k in ps ensures In(x, ps[k]) <==> k == MonthIndex(x) {
      assert PartitionAt(ps, k);
      MonthFirst(k);
      PartitionIsMonth(FirstOf(k), x);
    }
    assert MonthIndex(x) in ps ==> In(x, ps[MonthIndex(x)]);
    assert (exists k | k in ps :: In(x, ps[k])) <==> MonthIndex(x) in ps;
  }

  lemma MonthFirst(k: int)
    ensures Valid(FirstOf(k)) && MonthIndex(FirstOf(k)) == k
  {
  }
}
