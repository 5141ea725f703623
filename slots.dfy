/** Slots, the broadcast-day window, the half-open overlap test, the stable
    sort by start time that the scheduling code applies to day lists and to
    the flattened result, and the insertion-ordered dict of day lists. Time is
    an absolute count of minutes; a date is a day number, so minute `t` of the
    calendar falls on date `t / 1440`. */
module Slots {
  import opened Wrappers

  type Date = int

  const MinutesPerDay: int := 1440
  /** 06:00 on the day itself. */
  const DayStartOffset: int := 360
  /** 26:00, that is 02:00 on the following day. */
  const DayEndOffset: int := 1560

  /** A time of day given as `HH:MM`, in minutes after midnight. */
  type TimeOfDay = t: int | 0 <= t < 1440

  function Midnight(d: Date): int { d * MinutesPerDay }

  function WindowStart(d: Date): (t: int)
    ensures t - Midnight(d) == 6 * 60
  { Midnight(d) + DayStartOffset }

  function WindowEnd(d: Date): (t: int)
    ensures t - WindowStart(d) == 20 * 60
    ensures t - Midnight(d + 1) == 2 * 60
  { Midnight(d) + DayEndOffset }

  /** The date key a datetime falls on (the `%Y-%m-%d` of its own start). */
  function DateOf(t: int): (d: Date)
    ensures Midnight(d) <= t < Midnight(d) + MinutesPerDay
  { t / MinutesPerDay }

  lemma MidnightOfDate(t: int)
    requires t % MinutesPerDay == 0
    ensures Midnight(DateOf(t)) == t
    ensures (t + MinutesPerDay) % MinutesPerDay == 0
  {
    assert t == DateOf(t) * MinutesPerDay + t % MinutesPerDay;
  }

  /** Hour and minute as rendered in the two-digit hour:minute form. */
  function Clock(t: int): (int, int)
  { ((t % MinutesPerDay) / 60, t % 60) }

  /** The rendered hour and minute are in range and, with the date, give
      the datetime back. */
  lemma ClockRoundTrip(t: int)
    ensures var (h, m) := Clock(t);
            0 <= h < 24 && 0 <= m < 60 && t == Midnight(DateOf(t)) + h * 60 + m
  {
    var r := t % MinutesPerDay;
    assert t == Midnight(DateOf(t)) + r;
    assert r == (r / 60) * 60 + t % 60;
  }

  /** The date and the clock reading `m` minutes after midnight of `d`. */
  lemma ClockAt(d: Date, m: int)
    requires 0 <= m < MinutesPerDay
    ensures DateOf(Midnight(d) + m) == d
    ensures Clock(Midnight(d) + m) == (m / 60, m % 60)
  {
    var t := Midnight(d) + m;
    var q, r := t / 1440, t % 1440;
    assert t == d * 1440 + m;
    assert (q - d) * 1440 == m - r;
    assert q == d;
    var h := m / 60;
    var q', r' := t / 60, t % 60;
    assert t == (d * 24 + h) * 60 + m % 60;
    assert (q' - d * 24 - h) * 60 == m % 60 - r';
    assert r' == m % 60;
  }

  /** One entry of a day list: the dict built by `fill_time_slot`. */
  datatype Slot = Slot(
    start: int,
    end: int,
    mediaId: string,
    strategy: string,
    categoryFilters: seq<string>,
    notes: seq<string>)

  /** The new interval `[s, e)` and the existing slot `x` share a minute
      (half-open: touching endpoints do not overlap). */
  predicate Overlaps(s: int, e: int, x: Slot) {
    s < x.end && e > x.start
  }

  ghost predicate NoOverlap(day: seq<Slot>) {
    forall i, j :: 0 <= i < |day| && 0 <= j < |day| && i != j ==>
      !Overlaps(day[i].start, day[i].end, day[j])
  }

  /** Minute `t` is taken by some slot of the list. */
  ghost predicate InSlot(day: seq<Slot>, t: int) {
    exists x :: x in day && x.start <= t < x.end
  }

  ghost predicate SortedByStart(s: seq<Slot>) {
    forall i, j :: 0 <= i < j < |s| ==> s[i].start <= s[j].start
  }

  /** Places `x` after every element whose start is not later than its own. */
  function InsertByStart(x: Slot, s: seq<Slot>): (r: seq<Slot>)
    ensures |r| == |s| + 1
  {
    if s == [] then [x]
    else if x.start < s[0].start then [x] + s
    else
      assert s == [s[0]] + s[1..];
      [s[0]] + InsertByStart(x, s[1..])
  }

  lemma {:induction false} InsertByStartPermutation(x: Slot, s: seq<Slot>)
    ensures multiset(InsertByStart(x, s)) == multiset(s) + multiset{x}
  {
    if s != [] && x.start >= s[0].start {
      InsertByStartPermutation(x, s[1..]);
      assert s == [s[0]] + s[1..];
    }
  }

  ghost predicate StartsFrom(s: seq<Slot>, k: int) {
    forall i | 0 <= i < |s| :: k <= s[i].start
  }

  lemma {:induction false} InsertByStartBounded(x: Slot, s: seq<Slot>, k: int)
    requires StartsFrom(s, k) && k <= x.start
    ensures StartsFrom(InsertByStart(x, s), k)
  {
    if s != [] && x.start >= s[0].start {
      InsertByStartBounded(x, s[1..], k);
    }
  }

  lemma {:induction false} InsertByStartSorted(x: Slot, s: seq<Slot>)
    requires SortedByStart(s)
    ensures SortedByStart(InsertByStart(x, s))
  {
    if s != [] && x.start >= s[0].start {
      var rest := InsertByStart(x, s[1..]);
      InsertByStartSorted(x, s[1..]);
      InsertByStartBounded(x, s[1..], s[0].start);
      assert InsertByStart(x, s) == [s[0]] + rest;
    }
  }

  /** Python's stable sort on the start time: elements are taken in list order
      and each is placed after the equal-start elements already placed. */
  function SortByStart(s: seq<Slot>): seq<Slot>
  {
    if s == [] then [] else InsertByStart(s[|s| - 1], SortByStart(s[..|s| - 1]))
  }

  lemma {:induction false} SortByStartLength(s: seq<Slot>)
    ensures |SortByStart(s)| == |s|
  {
    if s != [] {
      SortByStartLength(s[..|s| - 1]);
    }
  }

  lemma LastSplit(s: seq<Slot>)
    requires s != []
    ensures multiset(s) == multiset(s[..|s| - 1]) + multiset{s[|s| - 1]}
  {
    assert s == s[..|s| - 1] + [s[|s| - 1]];
  }

  lemma {:induction false} SortByStartPermutation(s: seq<Slot>)
    ensures multiset(SortByStart(s)) == multiset(s)
  {
    if s != [] {
      var p, x := s[..|s| - 1], s[|s| - 1];
      SortByStartPermutation(p);
      InsertByStartPermutation(x, SortByStart(p));
      LastSplit(s);
    }
  }

  lemma {:induction false} SortByStartSorted(s: seq<Slot>)
    ensures SortedByStart(SortByStart(s))
  {
    if s != [] {
      var p := s[..|s| - 1];
      SortByStartSorted(p);
      InsertByStartSorted(s[|s| - 1], SortByStart(p));
    }
  }

  /** The stable sort yields a list sorted by start that holds the same
      slots. */
  lemma SortByStartSortedPermutation(s: seq<Slot>)
    ensures SortedByStart(SortByStart(s))
    ensures multiset(SortByStart(s)) == multiset(s)
    ensures |SortByStart(s)| == |s|
  {
    SortByStartSorted(s);
    SortByStartPermutation(s);
    SortByStartLength(s);
  }

  lemma {:induction false} InsertByStartAt(x: Slot, s: seq<Slot>) returns (k: nat)
    ensures k <= |s| && InsertByStart(x, s) == s[..k] + [x] + s[k..]
  {
    if s == [] || x.start < s[0].start {
      k := 0;
    } else {
      var k' := InsertByStartAt(x, s[1..]);
      k := k' + 1;
      assert s[..k] == [s[0]] + s[1..][..k'];
      assert s[k..] == s[1..][k'..];
    }
  }

  lemma NoOverlapInsertAt(s: seq<Slot>, x: Slot, k: nat)
    requires NoOverlap(s) && k <= |s|
    requires forall y | y in s :: !Overlaps(x.start, x.end, y)
    ensures NoOverlap(s[..k] + [x] + s[k..])
  {
    var r := s[..k] + [x] + s[k..];
    forall i, j | 0 <= i < |r| && 0 <= j < |r| && i != j
      ensures !Overlaps(r[i].start, r[i].end, r[j])
    {
      if i == k {
        assert r[j] in s;
      } else if j == k {
        assert r[i] in s;
      } else {
        var si := if i < k then i else i - 1;
        var sj := if j < k then j else j - 1;
        assert r[i] == s[si] && r[j] == s[sj];
      }
    }
  }

  /** Sorting keeps a day list free of overlaps. */
  lemma {:induction false} SortByStartNoOverlap(s: seq<Slot>)
    requires NoOverlap(s)
    ensures NoOverlap(SortByStart(s))
  {
    if s != [] {
      var p := s[..|s| - 1];
      var x := s[|s| - 1];
      assert NoOverlap(p) by {
        forall i, j | 0 <= i < |p| && 0 <= j < |p| && i != j
          ensures !Overlaps(p[i].start, p[i].end, p[j])
        {
          assert p[i] == s[i] && p[j] == s[j];
        }
      }
      SortByStartNoOverlap(p);
      SortByStartSortedPermutation(p);
      var sp := SortByStart(p);
      forall y | y in sp
        ensures !Overlaps(x.start, x.end, y)
      {
        assert y in multiset(p);
        var m :| 0 <= m < |p| && p[m] == y;
        assert s[m] == y;
      }
      var k := InsertByStartAt(x, sp);
      NoOverlapInsertAt(sp, x, k);
    }
  }

  /** The elements of `s` that start at minute `k`, in list order. */
  function StartingAt(s: seq<Slot>, k: int): (r: seq<Slot>)
    ensures |r| <= |s|
  {
    if s == [] then []
    else (if s[0].start == k then [s[0]] else []) + StartingAt(s[1..], k)
  }

  lemma AppendAssoc<T>(a: seq<T>, b: seq<T>, c: seq<T>)
    ensures a + (b + c) == (a + b) + c
  {
  }

  lemma SplitLast<T>(s: seq<T>)
    requires s != []
    ensures s == s[..|s| - 1] + [s[|s| - 1]]
  {
  }

  lemma StartingAtCons(h: Slot, t: seq<Slot>, k: int)
    ensures StartingAt([h] + t, k) == (if h.start == k then [h] else []) + StartingAt(t, k)
  {
    assert ([h] + t)[1..] == t;
  }

  lemma {:induction false} StartingAtAppend(a: seq<Slot>, b: seq<Slot>, k: int)
    ensures StartingAt(a + b, k) == StartingAt(a, k) + StartingAt(b, k)
  {
    if a != [] {
      var h, t := a[0], a[1..];
      assert a == [h] + t && a + b == [h] + (t + b);
      StartingAtAppend(t, b, k);
      StartingAtCons(h, t + b, k);
      StartingAtCons(h, t, k);
    } else {
      assert a + b == b;
    }
  }

  lemma {:induction false} NoneStartingAt(s: seq<Slot>, k: int)
    requires forall i | 0 <= i < |s| :: s[i].start > k
    ensures StartingAt(s, k) == []
  {
    if s != [] {
      NoneStartingAt(s[1..], k);
    }
  }

  lemma SortedTail(s: seq<Slot>)
    requires s != [] && SortedByStart(s)
    ensures SortedByStart(s[1..])
  {
    var t := s[1..];
    forall i, j | 0 <= i < j < |t| ensures t[i].start <= t[j].start {
      assert t[i] == s[i + 1] && t[j] == s[j + 1];
    }
  }

  /** Nothing in a sorted sequence starts at a time earlier than its head. */
  lemma SortedBelowHead(s: seq<Slot>, k: int)
    requires s != [] && SortedByStart(s) && k < s[0].start
    ensures StartingAt(s, k) == []
  {
    assert forall i | 0 <= i < |s| :: s[0].start <= s[i].start;
    NoneStartingAt(s, k);
  }

  lemma {:induction false} InsertByStartStable(x: Slot, s: seq<Slot>, k: int)
    requires SortedByStart(s)
    ensures StartingAt(InsertByStart(x, s), k) ==
      if x.start == k then StartingAt(s, k) + [x] else StartingAt(s, k)
  {
    if s == [] {
      StartingAtCons(x, [], k);
    } else if x.start < s[0].start {
      assert InsertByStart(x, s) == [x] + s;
      StartingAtCons(x, s, k);
      if x.start == k {
        SortedBelowHead(s, k);
      }
    } else {
      var h, t := s[0], s[1..];
      SortedTail(s);
      InsertByStartStable(x, t, k);
      assert InsertByStart(x, s) == [h] + InsertByStart(x, t);
      StartingAtCons(h, InsertByStart(x, t), k);
      assert s == [h] + t;
      StartingAtCons(h, t, k);
      var hk := if h.start == k then [h] else [];
      if x.start == k {
        AppendAssoc(hk, StartingAt(t, k), [x]);
      }
    }
  }

  /** Stability: for every start time, the slots sharing it keep their order. */
  lemma {:induction false} SortByStartStable(s: seq<Slot>, k: int)
    ensures StartingAt(SortByStart(s), k) == StartingAt(s, k)
  {
    if s != [] {
      var p, x := s[..|s| - 1], s[|s| - 1];
      var sp := SortByStart(p);
      SortByStartStable(p, k);
      SortByStartSorted(p);
      InsertByStartStable(x, sp, k);
      SplitLast(s);
      StartingAtAppend(p, [x], k);
      StartingAtCons(x, [], k);
      assert [x] + [] == [x];
    }
  }

  /** Python's dict of day lists: a map plus the order in which keys were first
      inserted, which is the order iteration visits them in. */
  datatype ScheduleDict = ScheduleDict(order: seq<Date>, days: map<Date, seq<Slot>>)
  {
    ghost predicate Valid() {
      && (forall i, j :: 0 <= i < j < |order| ==> order[i] != order[j])
      && (forall d :: d in days <==> d in order)
    }

    /** The slots of a date; none when the date has no entry. */
    function Get(d: Date): seq<Slot> {
      if d in days then days[d] else []
    }

    /** Stores `day` under `d`: a new key goes to the end of the key order. */
    function Put(d: Date, day: seq<Slot>): (r: ScheduleDict)
      ensures r.Get(d) == day
      ensures forall d' | d' != d :: r.Get(d') == Get(d')
      ensures r.order == if d in days then order else order + [d]
    {
      ScheduleDict(if d in days then order else order + [d], days[d := day])
    }
  }

  /** Writing a day back unchanged leaves a dict as it was. */
  lemma PutGet(sd: ScheduleDict, d: Date)
    requires d in sd.days
    ensures sd.Put(d, sd.Get(d)) == sd
  {
    assert sd.days[d := sd.days[d]] == sd.days;
  }

  /** A second write to the same day replaces the first. */
  lemma PutPut(sd: ScheduleDict, d: Date, a: seq<Slot>, b: seq<Slot>)
    ensures sd.Put(d, a).Put(d, b) == sd.Put(d, b)
  {
    assert sd.days[d := a][d := b] == sd.days[d := b];
  }

  lemma PutValid(sd: ScheduleDict, d: Date, day: seq<Slot>)
    requires sd.Valid()
    ensures sd.Put(d, day).Valid()
  {
    var r := sd.Put(d, day);
    if d !in sd.days {
      forall i, j | 0 <= i < j < |r.order|
        ensures r.order[i] != r.order[j]
      {
        if j == |sd.order| {
          assert r.order[i] == sd.order[i];
          assert sd.order[i] in sd.days;
        }
      }
    }
  }

  const EmptySchedule: ScheduleDict := ScheduleDict([], map[])

  /** The slots of the days listed in `order`, day after day, each day's list
      in its stored order. */
  function FlattenDays(order: seq<Date>, sd: ScheduleDict): seq<Slot>
  {
    if order == [] then []
    else FlattenDays(order[..|order| - 1], sd) + sd.Get(order[|order| - 1])
  }

  function Flatten(sd: ScheduleDict): seq<Slot> {
    FlattenDays(sd.order, sd)
  }

  /** The number of slots over all dates. */
  function SlotCount(sd: ScheduleDict): nat {
    CountDays(sd.order, sd)
  }

  function CountDays(order: seq<Date>, sd: ScheduleDict): nat {
    if order == [] then 0
    else CountDays(order[..|order| - 1], sd) + |sd.Get(order[|order| - 1])|
  }

  lemma {:induction false} FlattenDaysCount(order: seq<Date>, sd: ScheduleDict)
    ensures |FlattenDays(order, sd)| == CountDays(order, sd)
  {
    if order != [] {
      FlattenDaysCount(order[..|order| - 1], sd);
    }
  }

  /** Every slot stored under a listed day appears in the flattened list, and
      nothing else does. */
  lemma {:induction false} FlattenDaysMembers(order: seq<Date>, sd: ScheduleDict, x: Slot)
    ensures x in FlattenDays(order, sd) <==> exists i :: 0 <= i < |order| && x in sd.Get(order[i])
  {
    if order != [] {
      var p := order[..|order| - 1];
      FlattenDaysMembers(p, sd, x);
      if x in sd.Get(order[|order| - 1]) {
        assert 0 <= |order| - 1 < |order|;
      }
      if exists i :: 0 <= i < |order| && x in sd.Get(order[i]) {
        var i :| 0 <= i < |order| && x in sd.Get(order[i]);
        if i < |order| - 1 {
          assert order[i] == p[i];
        }
      }
    }
  }

  /** Replacing the slots of a day that is not listed leaves the flattened
      schedule as it was. */
  lemma {:induction false} FlattenDaysUntouched(order: seq<Date>, sd: ScheduleDict, d: Date, newDay: seq<Slot>)
    requires d !in order
    ensures FlattenDays(order, sd.Put(d, newDay)) == FlattenDays(order, sd)
  {
    if order != [] {
      var p := order[..|order| - 1];
      assert d !in p by {
        assert forall i | 0 <= i < |p| :: p[i] == order[i];
      }
      FlattenDaysUntouched(p, sd, d, newDay);
    }
  }

  /** Dropping the last key of a list of distinct keys leaves distinct keys,
      among them every key but the last. */
  lemma DistinctButLast(order: seq<Date>)
    requires order != []
    requires forall i, j | 0 <= i < j < |order| :: order[i] != order[j]
    ensures var p := order[..|order| - 1];
            && (forall i, j | 0 <= i < j < |p| :: p[i] != p[j])
            && order[|order| - 1] !in p
            && forall d | d in order && d != order[|order| - 1] :: d in p
  {
    var p := order[..|order| - 1];
    assert forall i | 0 <= i < |p| :: p[i] == order[i];
    assert order == p + [order[|order| - 1]];
  }

  lemma SwapUnderAppend(a': seq<Slot>, a: seq<Slot>, l: seq<Slot>, g: seq<Slot>, n: seq<Slot>)
    requires multiset(a') + multiset(g) == multiset(a) + multiset(n)
    ensures multiset(a' + l) + multiset(g) == multiset(a + l) + multiset(n)
  {
    forall y
      ensures (multiset(a' + l) + multiset(g))[y] == (multiset(a + l) + multiset(n))[y]
    {
      assert (multiset(a') + multiset(g))[y] == (multiset(a) + multiset(n))[y];
    }
  }

  /** Replacing one listed day's slots changes the flattened schedule by
      exactly the old and new slots of that day. */
  lemma {:induction false} FlattenDaysReplace(order: seq<Date>, sd: ScheduleDict, d: Date, newDay: seq<Slot>)
    requires forall i, j | 0 <= i < j < |order| :: order[i] != order[j]
    requires d in order
    ensures multiset(FlattenDays(order, sd.Put(d, newDay))) + multiset(sd.Get(d)) ==
            multiset(FlattenDays(order, sd)) + multiset(newDay)
  {
    var sd' := sd.Put(d, newDay);
    var p := order[..|order| - 1];
    var last := order[|order| - 1];
    DistinctButLast(order);
    assert FlattenDays(order, sd') == FlattenDays(p, sd') + sd'.Get(last);
    assert FlattenDays(order, sd) == FlattenDays(p, sd) + sd.Get(last);
    if last == d {
      FlattenDaysUntouched(p, sd, d, newDay);
    } else {
      FlattenDaysReplace(p, sd, d, newDay);
      SwapUnderAppend(FlattenDays(p, sd'), FlattenDays(p, sd), sd.Get(last), sd.Get(d), newDay);
    }
  }

  /** Storing a day list swaps that day's old slots for the new ones in the
      whole schedule. */
  lemma PutFlatten(sd: ScheduleDict, d: Date, newDay: seq<Slot>)
    requires sd.Valid()
    ensures multiset(Flatten(sd.Put(d, newDay))) + multiset(sd.Get(d)) == multiset(Flatten(sd)) + multiset(newDay)
  {
    var sd' := sd.Put(d, newDay);
    if d in sd.order {
      FlattenDaysReplace(sd.order, sd, d, newDay);
    } else {
      assert sd.Get(d) == [];
      FlattenDaysUntouched(sd.order, sd, d, newDay);
      var o := sd.order + [d];
      assert o[..|o| - 1] == sd.order;
      assert Flatten(sd') == FlattenDays(sd.order, sd') + newDay;
    }
  }

  lemma SlotCountFlatten(sd: ScheduleDict)
    ensures SlotCount(sd) == |Flatten(sd)|
  {
    FlattenDaysCount(sd.order, sd);
  }

  lemma CancelCommon(after: multiset<Slot>, before: multiset<Slot>, common: multiset<Slot>, x: Slot)
    requires after + common == before + multiset{x} + common
    ensures after == before + multiset{x}
  {
    forall y
      ensures after[y] == (before + multiset{x})[y]
    {
      assert (after + common)[y] == (before + multiset{x} + common)[y];
    }
  }

  /** Storing a day list that holds the day's old slots plus `x` adds
      exactly `x` to the whole schedule. */
  lemma PutAddsOneSlot(sd: ScheduleDict, d: Date, newDay: seq<Slot>, x: Slot)
    requires sd.Valid()
    requires multiset(newDay) == multiset(sd.Get(d)) + multiset{x}
    ensures multiset(Flatten(sd.Put(d, newDay))) == multiset(Flatten(sd)) + multiset{x}
    ensures SlotCount(sd.Put(d, newDay)) == SlotCount(sd) + 1
  {
    var sd' := sd.Put(d, newDay);
    PutFlatten(sd, d, newDay);
    CancelCommon(multiset(Flatten(sd')), multiset(Flatten(sd)), multiset(sd.Get(d)), x);
    SlotCountFlatten(sd);
    SlotCountFlatten(sd');
    assert |Flatten(sd')| == |multiset(Flatten(sd'))| == |multiset(Flatten(sd))| + 1 == |Flatten(sd)| + 1;
  }
}
