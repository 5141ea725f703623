/** The gap detector of the scheduling tools: `identify_schedule_gaps` walks
    the days of a date range and reports the free stretches of each day's
    broadcast window (06:00 to 02:00 the next day); `_create_gap_entry` cuts a
    gap at the caller's preferred `HH:MM` boundaries and labels it. */
module Gaps {
  import opened Slots

  /** Day of the week: Monday is 0, Saturday 5, Sunday 6. */
  type Weekday = w: int | 0 <= w < 7

  datatype Interval = Interval(start: int, end: int)

  datatype Bucket = Morning | Afternoon | Evening | LateNight

  datatype Context = Context(weekend: bool, bucket: Bucket)

  /** One entry of the returned list. Times are absolute minutes; `Clock`
      renders them as the `%H:%M` strings of the source. */
  datatype Gap = Gap(
    date: Date,
    gapStart: int,
    gapEnd: int,
    durationMinutes: int,
    suggestedSlots: seq<Interval>,
    context: Context)

  // ---------------------------------------------------------------------
  // Suggested sub-slots
  // ---------------------------------------------------------------------

  /** The preferred time on the current day, moved one day on when it falls before
      the gap start. */
  function Boundary(current: int, gapStart: int, p: TimeOfDay): int
  {
    var b := Midnight(DateOf(current)) + p;
    if b < gapStart then b + MinutesPerDay else b
  }

  /** A cut point is the preferred time on the walked day, or on the next
      day when that falls before the gap start. */
  lemma BoundaryDay(current: int, gapStart: int, p: TimeOfDay)
    ensures var b := Boundary(current, gapStart, p);
            && (b == Midnight(DateOf(current)) + p || b == Midnight(DateOf(current) + 1) + p)
            && (b < Midnight(DateOf(current)) + MinutesPerDay ==> gapStart <= Midnight(DateOf(current)) + p)
  {
    assert Midnight(DateOf(current) + 1) == Midnight(DateOf(current)) + MinutesPerDay;
  }

  /** The shifted preferred boundaries that fall strictly inside the gap, in
      the order the caller gave them. These are the cut points. */
  function Cuts(current: int, gs: int, ge: int, prefs: seq<TimeOfDay>): (cuts: seq<int>)
    ensures |cuts| <= |prefs|
    ensures forall i | 0 <= i < |cuts| :: gs < cuts[i] < ge
  {
    if prefs == [] then []
    else
      var b := Boundary(current, gs, prefs[|prefs| - 1]);
      Cuts(current, gs, ge, prefs[..|prefs| - 1]) + (if gs < b < ge then [b] else [])
  }

  /** The state of the source's loop over `preferred_slots` after it has seen
      `prefs`: the pieces appended so far and the running `slot_start`. */
  function Walk(current: int, gs: int, ge: int, prefs: seq<TimeOfDay>): (seq<Interval>, int)
  {
    if prefs == [] then ([], gs)
    else
      var (pieces, cursor) := Walk(current, gs, ge, prefs[..|prefs| - 1]);
      var b := Boundary(current, gs, prefs[|prefs| - 1]);
      if gs < b < ge then (pieces + [Interval(cursor, b)], b) else (pieces, cursor)
  }

  /** `suggested_slots` of `_create_gap_entry`. */
  function SuggestedSlots(current: int, gs: int, ge: int, prefs: seq<TimeOfDay>): seq<Interval>
  {
    if prefs == [] then [Interval(gs, ge)]
    else
      var (pieces, cursor) := Walk(current, gs, ge, prefs);
      if cursor < ge then pieces + [Interval(cursor, ge)] else pieces
  }

  /** The last cut point, or the gap start when there is none: where the
      last piece begins. */
  function LastCut(gs: int, cuts: seq<int>): int {
    if cuts == [] then gs else cuts[|cuts| - 1]
  }

  /** Piece `i` of the walk runs from the previous cut point (the gap start
      for the first) to cut point `i`. */
  ghost predicate PiecesFollow(pieces: seq<Interval>, gs: int, cuts: seq<int>) {
    && |pieces| == |cuts|
    && forall i | 0 <= i < |pieces| :: pieces[i] == Interval(([gs] + cuts)[i], cuts[i])
  }

  lemma PiecesFollowSnoc(pieces: seq<Interval>, gs: int, cuts: seq<int>, b: int)
    requires PiecesFollow(pieces, gs, cuts)
    ensures PiecesFollow(pieces + [Interval(LastCut(gs, cuts), b)], gs, cuts + [b])
  {
    var ps, cs := pieces + [Interval(LastCut(gs, cuts), b)], cuts + [b];
    forall i | 0 <= i < |ps|
      ensures ps[i] == Interval(([gs] + cs)[i], cs[i])
    {
      if i < |pieces| {
        assert ps[i] == pieces[i] && cs[i] == cuts[i] && ([gs] + cs)[i] == ([gs] + cuts)[i];
      } else {
        assert ([gs] + cs)[i] == LastCut(gs, cuts);
      }
    }
  }

  lemma {:induction false} WalkFollowsCuts(current: int, gs: int, ge: int, prefs: seq<TimeOfDay>)
    ensures var (pieces, cursor) := Walk(current, gs, ge, prefs);
            var cuts := Cuts(current, gs, ge, prefs);
            PiecesFollow(pieces, gs, cuts) && cursor == LastCut(gs, cuts)
  {
    if prefs != [] {
      var p := prefs[..|prefs| - 1];
      WalkFollowsCuts(current, gs, ge, p);
      var (pieces, cursor) := Walk(current, gs, ge, p);
      var cuts := Cuts(current, gs, ge, p);
      var b := Boundary(current, gs, prefs[|prefs| - 1]);
      if gs < b < ge {
        assert Walk(current, gs, ge, prefs) == (pieces + [Interval(cursor, b)], b);
        assert Cuts(current, gs, ge, prefs) == cuts + [b];
        PiecesFollowSnoc(pieces, gs, cuts, b);
      } else {
        assert Walk(current, gs, ge, prefs) == (pieces, cursor);
        assert Cuts(current, gs, ge, prefs) == cuts;
      }
    }
  }

  /** Closing the walk's pieces with the piece from the last cut to `ge`. */
  lemma PiecesClose(pieces: seq<Interval>, gs: int, cuts: seq<int>, ge: int)
    requires PiecesFollow(pieces, gs, cuts)
    ensures var r := pieces + [Interval(LastCut(gs, cuts), ge)];
            && |r| == |cuts| + 1
            && forall i | 0 <= i < |r| :: r[i] == Interval(([gs] + cuts)[i], (cuts + [ge])[i])
  {
    var r := pieces + [Interval(LastCut(gs, cuts), ge)];
    forall i | 0 <= i < |r|
      ensures r[i] == Interval(([gs] + cuts)[i], (cuts + [ge])[i])
    {
      if i < |pieces| {
        assert r[i] == pieces[i] && (cuts + [ge])[i] == cuts[i];
      } else {
        assert ([gs] + cuts)[i] == LastCut(gs, cuts);
      }
    }
  }

  /** The suggested sub-slots run from the gap start through every cut
      point, in the given order, to the gap end. */
  lemma SuggestedSlotsShape(current: int, gs: int, ge: int, prefs: seq<TimeOfDay>)
    requires gs < ge
    ensures var r := SuggestedSlots(current, gs, ge, prefs);
            var cuts := Cuts(current, gs, ge, prefs);
            && |r| == |cuts| + 1
            && forall i | 0 <= i < |r| :: r[i] == Interval(([gs] + cuts)[i], (cuts + [ge])[i])
  {
    var cuts := Cuts(current, gs, ge, prefs);
    if prefs == [] {
      assert cuts == [];
      PiecesClose([], gs, [], ge);
    } else {
      WalkFollowsCuts(current, gs, ge, prefs);
      var (pieces, cursor) := Walk(current, gs, ge, prefs);
      assert cursor < ge by {
        if cuts != [] {
          assert gs < cuts[|cuts| - 1] < ge;
        }
      }
      PiecesClose(pieces, gs, cuts, ge);
    }
  }

  /** Pieces cut at `cuts` inside `[gs, ge)` start at `gs`, end at `ge`
      and meet one another. */
  lemma CutPiecesMeet(r: seq<Interval>, gs: int, ge: int, cuts: seq<int>)
    requires |r| == |cuts| + 1
    requires forall i | 0 <= i < |r| :: r[i] == Interval(([gs] + cuts)[i], (cuts + [ge])[i])
    ensures r[0].start == gs && r[|r| - 1].end == ge
    ensures forall i | 0 <= i < |r| - 1 :: r[i].end == r[i + 1].start
  {
    forall i | 0 <= i < |r| - 1
      ensures r[i].end == r[i + 1].start
    {
      assert (cuts + [ge])[i] == cuts[i] == ([gs] + cuts)[i + 1];
    }
    assert r[|r| - 1].end == (cuts + [ge])[|cuts|];
  }

  /** With ascending cut points strictly inside the gap, no piece is
      empty. */
  lemma CutPiecesNonEmpty(r: seq<Interval>, gs: int, ge: int, cuts: seq<int>)
    requires |r| == |cuts| + 1 && gs < ge
    requires forall i | 0 <= i < |r| :: r[i] == Interval(([gs] + cuts)[i], (cuts + [ge])[i])
    requires forall i | 0 <= i < |cuts| :: gs < cuts[i] < ge
    requires forall i | 0 <= i < |cuts| - 1 :: cuts[i] < cuts[i + 1]
    ensures forall i | 0 <= i < |r| :: r[i].start < r[i].end
  {
    forall i | 0 <= i < |r|
      ensures r[i].start < r[i].end
    {
      if 0 < i < |cuts| {
        assert r[i] == Interval(cuts[i - 1], cuts[i]);
      } else if i == 0 && |cuts| > 0 {
        assert r[i] == Interval(gs, cuts[0]);
      } else if i == |cuts| && i > 0 {
        assert r[i] == Interval(cuts[i - 1], ge);
      }
    }
  }

  /** The pieces run from the gap start through every cut point, in the given
      order, to the gap end: with no preferred times there is one piece equal
      to the gap, the last piece always ends at the gap end, consecutive
      pieces meet, and when the cut points ascend every piece is non-empty. */
  lemma SuggestedSlotsFollowCuts(current: int, gs: int, ge: int, prefs: seq<TimeOfDay>)
    requires gs < ge
    ensures var r := SuggestedSlots(current, gs, ge, prefs);
            var cuts := Cuts(current, gs, ge, prefs);
            && |r| == |cuts| + 1
            && (forall i | 0 <= i < |r| :: r[i] == Interval(([gs] + cuts)[i], (cuts + [ge])[i]))
            && r[0].start == gs && r[|r| - 1].end == ge
            && (forall i | 0 <= i < |r| - 1 :: r[i].end == r[i + 1].start)
            && (prefs == [] ==> r == [Interval(gs, ge)])
            && ((forall i | 0 <= i < |cuts| - 1 :: cuts[i] < cuts[i + 1]) ==>
                  forall i | 0 <= i < |r| :: r[i].start < r[i].end)
  {
    var r := SuggestedSlots(current, gs, ge, prefs);
    var cuts := Cuts(current, gs, ge, prefs);
    SuggestedSlotsShape(current, gs, ge, prefs);
    CutPiecesMeet(r, gs, ge, cuts);
    if forall i | 0 <= i < |cuts| - 1 :: cuts[i] < cuts[i + 1] {
      CutPiecesNonEmpty(r, gs, ge, cuts);
    }
  }

  // ---------------------------------------------------------------------
  // Context label
  // ---------------------------------------------------------------------

  function BucketOf(hour: int): (b: Bucket)
  {
    if hour < 12 then Morning
    else if hour < 17 then Afternoon
    else if hour < 22 then Evening
    else LateNight
  }

  /** Weekday/weekend from the day being walked; time of day from the hour of
      the gap start. */
  function ContextOf(weekday: Weekday, gapStart: int): Context {
    Context(weekday == 5 || weekday == 6, BucketOf(Clock(gapStart).0))
  }

  function BucketText(b: Bucket): string {
    match b
    case Morning => "morning"
    case Afternoon => "afternoon"
    case Evening => "evening"
    case LateNight => "late night"
  }

  /** The context label: "Weekend" or "Weekday", a space, then the time-of-day bucket. */
  function ContextText(c: Context): string {
    (if c.weekend then "Weekend" else "Weekday") + " " + BucketText(c.bucket)
  }

  lemma ContextTextLabels(weekday: Weekday, gapStart: int)
    ensures var text := ContextText(ContextOf(weekday, gapStart));
            var hour := (gapStart % MinutesPerDay) / 60;
            && |text| > 8
            && (text[..7] == "Weekend" <==> weekday in {5, 6})
            && (text[..7] == "Weekday" <==> weekday in {0, 1, 2, 3, 4})
            && (text[8..] == "morning" <==> hour < 12)
            && (text[8..] == "afternoon" <==> 12 <= hour < 17)
            && (text[8..] == "evening" <==> 17 <= hour < 22)
            && (text[8..] == "late night" <==> 22 <= hour)
  {
    var c := ContextOf(weekday, gapStart);
    var text := ContextText(c);
    assert text[..7] == (if c.weekend then "Weekend" else "Weekday");
    assert text[8..] == BucketText(c.bucket);
  }

  // ---------------------------------------------------------------------
  // Gap entries
  // ---------------------------------------------------------------------

  /** `_create_gap_entry` for the day walked at `current`. */
  function GapEntry(d: Date, gs: int, ge: int, prefs: seq<TimeOfDay>, current: int, weekday: Weekday): Gap {
    Gap(d, gs, ge, ge - gs, SuggestedSlots(current, gs, ge, prefs), ContextOf(weekday, gs))
  }

  /** Builds one gap entry, as the source does, with a loop over the
      preferred times. */
  method CreateGapEntry(d: Date, gs: int, ge: int, prefs: seq<TimeOfDay>, current: int, weekday: Weekday)
    returns (g: Gap)
    ensures g == GapEntry(d, gs, ge, prefs, current, weekday)
  {
    var suggested: seq<Interval> := [];
    if |prefs| > 0 {
      var slotStart := gs;
      for i := 0 to |prefs|
        invariant (suggested, slotStart) == Walk(current, gs, ge, prefs[..i])
      {
        var boundary := Midnight(DateOf(current)) + prefs[i];
        if boundary < gs {
          boundary := boundary + MinutesPerDay;
        }
        if gs < boundary < ge {
          suggested := suggested + [Interval(slotStart, boundary)];
          slotStart := boundary;
        }
        assert prefs[..i + 1][..i] == prefs[..i];
      }
      assert prefs[..|prefs|] == prefs;
      if slotStart < ge {
        suggested := suggested + [Interval(slotStart, ge)];
      }
    } else {
      suggested := [Interval(gs, ge)];
    }
    var hour := Clock(gs).0;
    var bucket := if hour < 12 then Morning else if hour < 17 then Afternoon
                  else if hour < 22 then Evening else LateNight;
    g := Gap(d, gs, ge, ge - gs, suggested, Context(weekday in {5, 6}, bucket));
  }

  function GapEntries(ivs: seq<Interval>, d: Date, prefs: seq<TimeOfDay>, current: int, weekday: Weekday): (gs: seq<Gap>)
    ensures |gs| == |ivs|
  {
    if ivs == [] then []
    else
      var iv := ivs[|ivs| - 1];
      GapEntries(ivs[..|ivs| - 1], d, prefs, current, weekday) + [GapEntry(d, iv.start, iv.end, prefs, current, weekday)]
  }

  lemma {:induction false} GapEntriesAppend(a: seq<Interval>, b: seq<Interval>, d: Date, prefs: seq<TimeOfDay>, current: int, weekday: Weekday)
    ensures GapEntries(a + b, d, prefs, current, weekday) ==
            GapEntries(a, d, prefs, current, weekday) + GapEntries(b, d, prefs, current, weekday)
  {
    if b == [] {
      assert a + b == a;
    } else {
      var b' := b[..|b| - 1];
      var iv := b[|b| - 1];
      var e := GapEntry(d, iv.start, iv.end, prefs, current, weekday);
      GapEntriesAppend(a, b', d, prefs, current, weekday);
      assert (a + b)[..|a + b| - 1] == a + b';
      assert (a + b)[|a + b| - 1] == iv;
      assert GapEntries(a + b, d, prefs, current, weekday) == GapEntries(a + b', d, prefs, current, weekday) + [e];
      assert GapEntries(b, d, prefs, current, weekday) == GapEntries(b', d, prefs, current, weekday) + [e];
    }
  }

  lemma {:induction false} GapEntriesAt(ivs: seq<Interval>, d: Date, prefs: seq<TimeOfDay>, current: int, weekday: Weekday, i: int)
    requires 0 <= i < |ivs|
    ensures GapEntries(ivs, d, prefs, current, weekday)[i] == GapEntry(d, ivs[i].start, ivs[i].end, prefs, current, weekday)
  {
    if i < |ivs| - 1 {
      GapEntriesAt(ivs[..|ivs| - 1], d, prefs, current, weekday, i);
    }
  }

  /** Each entry carries the date of the day and the bounds of its
      interval, and its duration is the interval's length. */
  lemma GapEntriesFields(ivs: seq<Interval>, d: Date, prefs: seq<TimeOfDay>, current: int, weekday: Weekday)
    ensures var r := GapEntries(ivs, d, prefs, current, weekday);
            forall k | 0 <= k < |r| ::
              && r[k].date == d
              && r[k].gapStart == ivs[k].start && r[k].gapEnd == ivs[k].end
              && r[k].durationMinutes == ivs[k].end - ivs[k].start
  {
    forall k | 0 <= k < |ivs| {
      GapEntriesAt(ivs, d, prefs, current, weekday, k);
    }
  }

  // ---------------------------------------------------------------------
  // Free intervals of one day
  // ---------------------------------------------------------------------

  /** The gaps between neighbours of a start-sorted day list. */
  function InnerGaps(ss: seq<Slot>): (r: seq<Interval>)
    ensures |r| <= if ss == [] then 0 else |ss| - 1
    ensures forall i | 0 <= i < |r| :: r[i].start < r[i].end
  {
    if |ss| < 2 then []
    else
      var p := ss[..|ss| - 1];
      InnerGaps(p) +
      (if ss[|ss| - 2].end < ss[|ss| - 1].start then [Interval(ss[|ss| - 2].end, ss[|ss| - 1].start)] else [])
  }

  function BeforeGap(ss: seq<Slot>, ws: int): seq<Interval>
    requires ss != []
  {
    if ss[0].start > ws then [Interval(ws, ss[0].start)] else []
  }

  function AfterGap(ss: seq<Slot>, we: int): seq<Interval>
    requires ss != []
  {
    if ss[|ss| - 1].end < we then [Interval(ss[|ss| - 1].end, we)] else []
  }

  /** The free stretches of the window `[ws, we)` around the start-sorted
      day list `ss`. */
  function FreeIntervals(ss: seq<Slot>, ws: int, we: int): seq<Interval>
  {
    if ss == [] then [Interval(ws, we)]
    else BeforeGap(ss, ws) + InnerGaps(ss) + AfterGap(ss, we)
  }

  /** Every gap is non-empty, a day with N slots has at most N + 1 gaps, and
      an empty day has exactly one, the whole window. */
  lemma FreeIntervalsCount(ss: seq<Slot>, ws: int, we: int)
    requires ws < we
    ensures var r := FreeIntervals(ss, ws, we);
            && |r| <= |ss| + 1
            && (forall i | 0 <= i < |r| :: r[i].start < r[i].end)
            && (ss == [] ==> r == [Interval(ws, we)])
  {
    if ss != [] {
      var r := FreeIntervals(ss, ws, we);
      var b, m, a := BeforeGap(ss, ws), InnerGaps(ss), AfterGap(ss, we);
      assert r == b + m + a;
      assert forall i | 0 <= i < |r| :: r[i] in b || r[i] in m || r[i] in a;
    }
  }

  /** Every gap between neighbours comes from a pair `j`, `j + 1` where the
      later slot starts after the earlier one ends. */
  lemma {:induction false} InnerGapsSource(ss: seq<Slot>, g: Interval) returns (j: int)
    requires g in InnerGaps(ss)
    ensures 0 <= j < |ss| - 1 && ss[j].end < ss[j + 1].start && g == Interval(ss[j].end, ss[j + 1].start)
  {
    var n := |ss|;
    var p := ss[..n - 1];
    var last := if ss[n - 2].end < ss[n - 1].start then [Interval(ss[n - 2].end, ss[n - 1].start)] else [];
    assert InnerGaps(ss) == InnerGaps(p) + last;
    if g in InnerGaps(p) {
      j := InnerGapsSource(p, g);
      assert p[j] == ss[j] && p[j + 1] == ss[j + 1];
    } else {
      assert g in last;
      j := n - 2;
    }
  }

  /** Every such pair yields its gap. */
  lemma {:induction false} InnerGapsComplete(ss: seq<Slot>, j: int)
    requires 0 <= j < |ss| - 1 && ss[j].end < ss[j + 1].start
    ensures Interval(ss[j].end, ss[j + 1].start) in InnerGaps(ss)
  {
    var n := |ss|;
    if j < n - 2 {
      var p := ss[..n - 1];
      assert p[j] == ss[j] && p[j + 1] == ss[j + 1];
      InnerGapsComplete(p, j);
    }
  }

  /** A gap between neighbours `j` and `j + 1` exists exactly when the later
      one starts after the earlier one ends, and it runs from that end to
      that start. */
  lemma InnerGapsMembers(ss: seq<Slot>, g: Interval)
    ensures g in InnerGaps(ss) <==>
            exists j :: 0 <= j < |ss| - 1 && ss[j].end < ss[j + 1].start && g == Interval(ss[j].end, ss[j + 1].start)
  {
    if g in InnerGaps(ss) {
      var j := InnerGapsSource(ss, g);
    }
    if exists j :: 0 <= j < |ss| - 1 && ss[j].end < ss[j + 1].start && g == Interval(ss[j].end, ss[j + 1].start) {
      var j :| 0 <= j < |ss| - 1 && ss[j].end < ss[j + 1].start && g == Interval(ss[j].end, ss[j + 1].start);
      InnerGapsComplete(ss, j);
    }
  }

  /** Slots of a day list that follow one another without overlapping. */
  ghost predicate Chained(ss: seq<Slot>) {
    && (forall i | 0 <= i < |ss| :: ss[i].start < ss[i].end)
    && (forall i, j | 0 <= i < j < |ss| :: ss[i].end <= ss[j].start)
  }

  lemma ChainedPrefix(ss: seq<Slot>)
    requires Chained(ss) && ss != []
    ensures Chained(ss[..|ss| - 1])
  {
    var p := ss[..|ss| - 1];
    assert forall i | 0 <= i < |p| :: p[i] == ss[i];
  }

  /** The first slot starts no later, and the last ends no earlier, than
      any slot of a chained list. */
  lemma ChainedBounds(ss: seq<Slot>)
    requires Chained(ss) && ss != []
    ensures forall k | 0 <= k < |ss| :: ss[0].start <= ss[k].start && ss[k].end <= ss[|ss| - 1].end
  {
    var n := |ss|;
    forall k | 0 <= k < n
      ensures ss[0].start <= ss[k].start && ss[k].end <= ss[n - 1].end
    {
      if k > 0 {
        assert ss[0].end <= ss[k].start;
      }
      if k < n - 1 {
        assert ss[k].end <= ss[n - 1].start;
      }
    }
  }

  ghost predicate InInterval(ivs: seq<Interval>, t: int) {
    exists g :: g in ivs && g.start <= t < g.end
  }

  /** A gap between neighbours lies between the first slot's end and the
      last slot's start and shares no minute with any slot. */
  lemma InnerGapsBetween(ss: seq<Slot>, g: Interval)
    requires Chained(ss) && g in InnerGaps(ss)
    ensures ss[0].end <= g.start && g.end <= ss[|ss| - 1].start
    ensures forall k | 0 <= k < |ss| :: g.end <= ss[k].start || ss[k].end <= g.start
  {
    var n := |ss|;
    var j := InnerGapsSource(ss, g);
    forall k | 0 <= k < n
      ensures g.end <= ss[k].start || ss[k].end <= g.start
    {
      if k < j {
        assert ss[k].end <= ss[j].start;
      } else if k > j + 1 {
        assert ss[j + 1].end <= ss[k].start;
      }
    }
    if j > 0 {
      assert ss[0].end <= ss[j].start;
    }
    if j + 1 < n - 1 {
      assert ss[j + 1].end <= ss[n - 1].start;
    }
  }

  /** Intervals in time order, none touching the next. */
  ghost predicate Ordered(ivs: seq<Interval>) {
    forall i, j | 0 <= i < j < |ivs| :: ivs[i].end < ivs[j].start
  }

  lemma OrderedConcat(x: seq<Interval>, y: seq<Interval>)
    requires Ordered(x) && Ordered(y)
    requires forall u, v | u in x && v in y :: u.end < v.start
    ensures Ordered(x + y)
  {
    var z := x + y;
    forall i, j | 0 <= i < j < |z|
      ensures z[i].end < z[j].start
    {
      if j < |x| {
        assert z[i] == x[i] && z[j] == x[j];
      } else if i >= |x| {
        assert z[i] == y[i - |x|] && z[j] == y[j - |x|];
      } else {
        assert z[i] == x[i] && z[j] == y[j - |x|];
        assert x[i] in x && y[j - |x|] in y;
      }
    }
  }

  lemma {:induction false} InnerGapsOrdered(ss: seq<Slot>)
    requires Chained(ss)
    ensures Ordered(InnerGaps(ss))
  {
    var n := |ss|;
    if n >= 2 {
      var p := ss[..n - 1];
      ChainedPrefix(ss);
      InnerGapsOrdered(p);
      var rp := InnerGaps(p);
      if ss[n - 2].end < ss[n - 1].start {
        var last := Interval(ss[n - 2].end, ss[n - 1].start);
        assert InnerGaps(ss) == rp + [last];
        forall u, v | u in rp && v in [last]
          ensures u.end < v.start
        {
          InnerGapsBetween(p, u);
          assert p[|p| - 1] == ss[n - 2];
        }
        OrderedConcat(rp, [last]);
      } else {
        assert InnerGaps(ss) == rp;
      }
    }
  }

  /** Between the first start and the last end, every minute lies in a slot
      or in a gap between neighbours. */
  lemma {:induction false} InnerGapsCover(ss: seq<Slot>, t: int)
    requires Chained(ss) && ss != []
    requires ss[0].start <= t < ss[|ss| - 1].end
    ensures InSlot(ss, t) || InInterval(InnerGaps(ss), t)
  {
    var n := |ss|;
    if n == 1 {
      assert ss[0] in ss;
    } else if t < ss[n - 2].end {
      var p := ss[..n - 1];
      ChainedPrefix(ss);
      InnerGapsCover(p, t);
      if InSlot(p, t) {
        var x :| x in p && x.start <= t < x.end;
        assert x in ss;
      }
    } else if t < ss[n - 1].start {
      assert Interval(ss[n - 2].end, ss[n - 1].start) in InnerGaps(ss);
    } else {
      assert ss[n - 1] in ss;
    }
  }

  ghost predicate InsideWindow(ss: seq<Slot>, ws: int, we: int) {
    forall k | 0 <= k < |ss| :: ws <= ss[k].start && ss[k].end <= we
  }

  lemma FreeIntervalsInWindow(ss: seq<Slot>, ws: int, we: int)
    requires ws < we && Chained(ss) && InsideWindow(ss, ws, we)
    ensures forall g | g in FreeIntervals(ss, ws, we) :: ws <= g.start < g.end <= we
  {
    if ss != [] {
      forall g | g in InnerGaps(ss)
        ensures ws <= g.start < g.end <= we
      {
        InnerGapsBetween(ss, g);
      }
    }
  }

  lemma FreeIntervalsOrdered(ss: seq<Slot>, ws: int, we: int)
    requires Chained(ss)
    ensures Ordered(FreeIntervals(ss, ws, we))
  {
    if ss != [] {
      var n := |ss|;
      var b, m, a := BeforeGap(ss, ws), InnerGaps(ss), AfterGap(ss, we);
      ChainedBounds(ss);
      InnerGapsOrdered(ss);
      forall u, v | u in b && v in m
        ensures u.end < v.start
      {
        InnerGapsBetween(ss, v);
      }
      OrderedConcat(b, m);
      forall u, v | u in b + m && v in a
        ensures u.end < v.start
      {
        if u in m {
          InnerGapsBetween(ss, u);
        }
      }
      OrderedConcat(b + m, a);
    }
  }

  lemma FreeIntervalsAvoidSlots(ss: seq<Slot>, ws: int, we: int)
    requires Chained(ss)
    ensures forall g, k | g in FreeIntervals(ss, ws, we) && 0 <= k < |ss| ::
              g.end <= ss[k].start || ss[k].end <= g.start
  {
    if ss != [] {
      var n := |ss|;
      var b, m, a := BeforeGap(ss, ws), InnerGaps(ss), AfterGap(ss, we);
      assert FreeIntervals(ss, ws, we) == b + m + a;
      ChainedBounds(ss);
      forall g: Interval, k | g in b + m + a && 0 <= k < n
        ensures g.end <= ss[k].start || ss[k].end <= g.start
      {
        if g in m {
          InnerGapsBetween(ss, g);
        }
      }
    }
  }

  lemma FreeIntervalsCoverWindow(ss: seq<Slot>, ws: int, we: int)
    requires Chained(ss)
    ensures forall t | ws <= t < we :: InInterval(FreeIntervals(ss, ws, we), t) || InSlot(ss, t)
  {
    var gaps := FreeIntervals(ss, ws, we);
    if ss == [] {
      assert Interval(ws, we) in gaps;
    } else {
      var n := |ss|;
      var b, m, a := BeforeGap(ss, ws), InnerGaps(ss), AfterGap(ss, we);
      assert gaps == b + m + a;
      forall t | ws <= t < we
        ensures InInterval(gaps, t) || InSlot(ss, t)
      {
        if t < ss[0].start {
          assert b[0] in gaps;
        } else if t >= ss[n - 1].end {
          assert a[0] in gaps;
        } else {
          InnerGapsCover(ss, t);
          if InInterval(m, t) {
            var g :| g in m && g.start <= t < g.end;
            assert g in gaps;
          }
        }
      }
    }
  }

  /** The partition guarantee: when a day's slots follow one another inside
      the window, the gaps and the slots tile the window. Every gap lies in
      the window, the gaps come in time order without touching, no gap
      shares a minute with a slot, and every minute of the window lies in a
      gap or in a slot. */
  lemma FreeIntervalsTile(ss: seq<Slot>, ws: int, we: int)
    requires ws < we && Chained(ss) && InsideWindow(ss, ws, we)
    ensures var gaps := FreeIntervals(ss, ws, we);
            && (forall g | g in gaps :: ws <= g.start < g.end <= we)
            && Ordered(gaps)
            && (forall g, k | g in gaps && 0 <= k < |ss| :: g.end <= ss[k].start || ss[k].end <= g.start)
            && (forall t | ws <= t < we :: InInterval(gaps, t) || InSlot(ss, t))
  {
    FreeIntervalsInWindow(ss, ws, we);
    FreeIntervalsOrdered(ss, ws, we);
    FreeIntervalsAvoidSlots(ss, ws, we);
    FreeIntervalsCoverWindow(ss, ws, we);
  }

  // ---------------------------------------------------------------------
  // Days of the range
  // ---------------------------------------------------------------------

  /** The weekday of the following date. */
  function NextWeekday(w: Weekday): Weekday {
    if w == 6 then 0 else w + 1
  }

  /** The gaps reported for the day walked at `current`. */
  function DayGaps(sched: ScheduleDict, current: int, weekday: Weekday, prefs: seq<TimeOfDay>): seq<Gap> {
    var d := DateOf(current);
    GapEntries(
      FreeIntervals(SortByStart(sched.Get(d)), current + DayStartOffset, current + DayEndOffset),
      d, prefs, current, weekday)
  }

  /** The result of `identify_schedule_gaps` from the day at `current` on. */
  function ScheduleGaps(sched: ScheduleDict, current: int, end: int, weekday: Weekday, prefs: seq<TimeOfDay>): seq<Gap>
    decreases end - current
  {
    if current >= end then []
    else DayGaps(sched, current, weekday, prefs) +
         ScheduleGaps(sched, current + MinutesPerDay, end, NextWeekday(weekday), prefs)
  }

  /** The entries of one day are those of the free intervals of its
      sorted list, one for one. */
  lemma DayGapsFields(sched: ScheduleDict, current: int, weekday: Weekday, prefs: seq<TimeOfDay>)
    ensures var ivs := FreeIntervals(SortByStart(sched.Get(DateOf(current))), current + DayStartOffset, current + DayEndOffset);
            var r := DayGaps(sched, current, weekday, prefs);
            && |r| == |ivs|
            && forall k | 0 <= k < |r| ::
                 && r[k].date == DateOf(current)
                 && r[k].gapStart == ivs[k].start && r[k].gapEnd == ivs[k].end
                 && r[k].durationMinutes == ivs[k].end - ivs[k].start
  {
    var ivs := FreeIntervals(SortByStart(sched.Get(DateOf(current))), current + DayStartOffset, current + DayEndOffset);
    GapEntriesFields(ivs, DateOf(current), prefs, current, weekday);
  }

  /** One more neighbour pair adds its gap, if any, at the end. */
  lemma InnerGapsStep(ss: seq<Slot>, i: nat)
    requires i + 1 < |ss|
    ensures InnerGaps(ss[..i + 2]) == InnerGaps(ss[..i + 1]) +
              (if ss[i].end < ss[i + 1].start then [Interval(ss[i].end, ss[i + 1].start)] else [])
  {
    assert ss[..i + 2][..i + 1] == ss[..i + 1];
  }

  /** The gaps between neighbours of a start-sorted day list, in order. */
  method DetectInnerGaps(sorted: seq<Slot>, dayKey: Date, prefs: seq<TimeOfDay>, current: int, weekday: Weekday)
    returns (inner: seq<Gap>)
    requires sorted != []
    ensures inner == GapEntries(InnerGaps(sorted), dayKey, prefs, current, weekday)
  {
    inner := [];
    for i := 0 to |sorted| - 1
      invariant inner == GapEntries(InnerGaps(sorted[..i + 1]), dayKey, prefs, current, weekday)
    {
      var slotEnd := sorted[i].end;
      var nextSlotStart := sorted[i + 1].start;
      ghost var found := InnerGaps(sorted[..i + 1]);
      InnerGapsStep(sorted, i);
      if nextSlotStart > slotEnd {
        var g := CreateGapEntry(dayKey, slotEnd, nextSlotStart, prefs, current, weekday);
        inner := inner + [g];
        GapEntriesAppend(found, [Interval(slotEnd, nextSlotStart)], dayKey, prefs, current, weekday);
      } else {
        assert found + [] == found;
      }
    }
    assert sorted[..|sorted|] == sorted;
  }

  /** The body of the day loop of `identify_schedule_gaps`: the gap before
      the first slot, the gaps between neighbours and the gap after the last
      slot of the start-sorted day list, each turned into an entry. */
  method DetectDayGaps(sorted: seq<Slot>, dayKey: Date, dayStart: int, dayEnd: int,
                       prefs: seq<TimeOfDay>, current: int, weekday: Weekday)
    returns (dayGaps: seq<Gap>)
    ensures dayGaps == GapEntries(FreeIntervals(sorted, dayStart, dayEnd), dayKey, prefs, current, weekday)
  {
    if |sorted| == 0 {
      var g := CreateGapEntry(dayKey, dayStart, dayEnd, prefs, current, weekday);
      dayGaps := [g];
      assert dayGaps == GapEntries([Interval(dayStart, dayEnd)], dayKey, prefs, current, weekday);
      return;
    }
    var before: seq<Gap> := [];
    var firstSlotStart := sorted[0].start;
    if firstSlotStart > dayStart {
      var g := CreateGapEntry(dayKey, dayStart, firstSlotStart, prefs, current, weekday);
      before := [g];
      assert before == GapEntries([Interval(dayStart, firstSlotStart)], dayKey, prefs, current, weekday);
    }
    var inner := DetectInnerGaps(sorted, dayKey, prefs, current, weekday);
    var after: seq<Gap> := [];
    var lastSlotEnd := sorted[|sorted| - 1].end;
    if lastSlotEnd < dayEnd {
      var g := CreateGapEntry(dayKey, lastSlotEnd, dayEnd, prefs, current, weekday);
      after := [g];
      assert after == GapEntries([Interval(lastSlotEnd, dayEnd)], dayKey, prefs, current, weekday);
    }
    dayGaps := before + inner + after;
    GapEntriesAppend(BeforeGap(sorted, dayStart), InnerGaps(sorted), dayKey, prefs, current, weekday);
    GapEntriesAppend(BeforeGap(sorted, dayStart) + InnerGaps(sorted), AfterGap(sorted, dayEnd), dayKey, prefs, current, weekday);
  }

  lemma ScheduleGapsStep(sched: ScheduleDict, current: int, end: int, weekday: Weekday, prefs: seq<TimeOfDay>)
    requires current < end
    ensures ScheduleGaps(sched, current, end, weekday, prefs) ==
            DayGaps(sched, current, weekday, prefs) + ScheduleGaps(sched, current + MinutesPerDay, end, NextWeekday(weekday), prefs)
  {
  }

  /** One more day of the walk keeps the collected gaps a prefix of the
      whole result. */
  lemma ScheduleGapsAdvance(sched: ScheduleDict, start: int, current: int, end: int, startWeekday: Weekday,
                            weekday: Weekday, prefs: seq<TimeOfDay>, gaps: seq<Gap>, dayGaps: seq<Gap>)
    requires current < end
    requires gaps + ScheduleGaps(sched, current, end, weekday, prefs) == ScheduleGaps(sched, start, end, startWeekday, prefs)
    requires dayGaps == GapEntries(FreeIntervals(SortByStart(sched.Get(DateOf(current))), current + DayStartOffset,
                                                 current + DayEndOffset), DateOf(current), prefs, current, weekday)
    ensures (gaps + dayGaps) + ScheduleGaps(sched, current + MinutesPerDay, end, NextWeekday(weekday), prefs) ==
            ScheduleGaps(sched, start, end, startWeekday, prefs)
  {
    var rest := ScheduleGaps(sched, current + MinutesPerDay, end, NextWeekday(weekday), prefs);
    ScheduleGapsStep(sched, current, end, weekday, prefs);
    assert dayGaps == DayGaps(sched, current, weekday, prefs);
    AppendAssoc(gaps, dayGaps, rest);
  }

  /** `identify_schedule_gaps`: walks the range one day at a time, looks the
      day up (a missing day is empty), sorts it by start and collects its
      gaps. The `immutableSlots` argument is accepted and not used, as in
      the source. */
  method IdentifyScheduleGaps(
    sched: ScheduleDict, startDate: int, endDate: int, startWeekday: Weekday,
    immutableSlots: seq<string>, prefs: seq<TimeOfDay>)
    returns (gaps: seq<Gap>)
    ensures gaps == ScheduleGaps(sched, startDate, endDate, startWeekday, prefs)
  {
    gaps := [];
    var current := startDate;
    var weekday := startWeekday;
    while current < endDate
      invariant gaps + ScheduleGaps(sched, current, endDate, weekday, prefs) ==
                ScheduleGaps(sched, startDate, endDate, startWeekday, prefs)
      decreases endDate - current
    {
      var dayKey := DateOf(current);
      var sorted := SortByStart(sched.Get(dayKey));
      var dayGaps := DetectDayGaps(sorted, dayKey, current + DayStartOffset, current + DayEndOffset, prefs, current, weekday);
      ScheduleGapsAdvance(sched, startDate, current, endDate, startWeekday, weekday, prefs, gaps, dayGaps);
      gaps := gaps + dayGaps;
      current := current + MinutesPerDay;
      weekday := NextWeekday(weekday);
    }
    assert gaps + [] == gaps;
  }

  // ---------------------------------------------------------------------
  // Properties of the whole range
  // ---------------------------------------------------------------------

  /** Minute `t` lies inside one of the reported gaps. */
  ghost predicate InGap(gaps: seq<Gap>, t: int) {
    exists g :: g in gaps && g.gapStart <= t < g.gapEnd
  }

  /** Every gap of `gs` is non-empty, its duration is its length, and its
      date's midnight lies in `[lo, hi)`. */
  ghost predicate GapsDatedWithin(gs: seq<Gap>, lo: int, hi: int) {
    forall g | g in gs ::
      && g.gapStart < g.gapEnd
      && g.durationMinutes == g.gapEnd - g.gapStart
      && lo <= Midnight(g.date) < hi
  }

  /** Each gap of one day is non-empty, its duration is its length, and it
      carries the day's date. */
  lemma DayGapsWellFormed(sched: ScheduleDict, current: int, weekday: Weekday, prefs: seq<TimeOfDay>)
    ensures forall g | g in DayGaps(sched, current, weekday, prefs) ::
              && g.gapStart < g.gapEnd
              && g.durationMinutes == g.gapEnd - g.gapStart
              && g.date == DateOf(current)
  {
    var r := DayGaps(sched, current, weekday, prefs);
    FreeIntervalsCount(SortByStart(sched.Get(DateOf(current))), current + DayStartOffset, current + DayEndOffset);
    DayGapsFields(sched, current, weekday, prefs);
    forall g | g in r
      ensures g.gapStart < g.gapEnd && g.durationMinutes == g.gapEnd - g.gapStart && g.date == DateOf(current)
    {
      var k :| 0 <= k < |r| && r[k] == g;
    }
  }

  lemma DayGapsDated(sched: ScheduleDict, current: int, end: int, weekday: Weekday, prefs: seq<TimeOfDay>)
    requires current % MinutesPerDay == 0 && current < end
    ensures GapsDatedWithin(DayGaps(sched, current, weekday, prefs), current, end)
  {
    MidnightOfDate(current);
    DayGapsWellFormed(sched, current, weekday, prefs);
  }

  lemma GapsDatedConcat(a: seq<Gap>, b: seq<Gap>, lo: int, mid: int, hi: int)
    requires GapsDatedWithin(a, lo, hi) && GapsDatedWithin(b, mid, hi) && lo <= mid
    ensures GapsDatedWithin(a + b, lo, hi)
  {
    forall g | g in a + b
      ensures g.gapStart < g.gapEnd && g.durationMinutes == g.gapEnd - g.gapStart && lo <= Midnight(g.date) < hi
    {
      if g in a {
      } else {
        assert g in b;
      }
    }
  }

  /** Every reported gap is non-empty, its duration is its length, and it
      falls on a date of the range. */
  lemma {:induction false} ScheduleGapsDates(sched: ScheduleDict, current: int, end: int, weekday: Weekday, prefs: seq<TimeOfDay>)
    requires current % MinutesPerDay == 0
    ensures GapsDatedWithin(ScheduleGaps(sched, current, end, weekday, prefs), current, end)
    decreases end - current
  {
    if current < end {
      var next := current + MinutesPerDay;
      var day := DayGaps(sched, current, weekday, prefs);
      var rest := ScheduleGaps(sched, next, end, NextWeekday(weekday), prefs);
      ScheduleGapsStep(sched, current, end, weekday, prefs);
      MidnightOfDate(current);
      DayGapsDated(sched, current, end, weekday, prefs);
      ScheduleGapsDates(sched, next, end, NextWeekday(weekday), prefs);
      GapsDatedConcat(day, rest, current, next, end);
    }
  }

  /** The dates of a gap list never go backwards. */
  ghost predicate DatesAscend(gs: seq<Gap>) {
    forall i, j | 0 <= i < j < |gs| :: gs[i].date <= gs[j].date
  }

  lemma DatesAscendConcat(a: seq<Gap>, b: seq<Gap>, d: Date)
    requires forall g | g in a :: g.date == d
    requires forall g | g in b :: d < g.date
    requires DatesAscend(b)
    ensures DatesAscend(a + b)
  {
    var ab := a + b;
    forall i, j | 0 <= i < j < |ab| ensures ab[i].date <= ab[j].date {
      if j < |a| {
        assert ab[i] in a && ab[j] in a;
      } else if i < |a| {
        assert ab[i] in a && ab[j] == b[j - |a|];
      } else {
        assert ab[i] == b[i - |a|] && ab[j] == b[j - |a|];
      }
    }
  }

  /** The days of the range are walked in order: the reported gaps come
      out by ascending date. */
  lemma {:induction false} ScheduleGapsDatesAscend(sched: ScheduleDict, current: int, end: int, weekday: Weekday,
                                                   prefs: seq<TimeOfDay>)
    requires current % MinutesPerDay == 0
    ensures DatesAscend(ScheduleGaps(sched, current, end, weekday, prefs))
    decreases end - current
  {
    if current < end {
      var next := current + MinutesPerDay;
      var day := DayGaps(sched, current, weekday, prefs);
      var rest := ScheduleGaps(sched, next, end, NextWeekday(weekday), prefs);
      ScheduleGapsStep(sched, current, end, weekday, prefs);
      MidnightOfDate(current);
      ScheduleGapsDatesAscend(sched, next, end, NextWeekday(weekday), prefs);
      ScheduleGapsDates(sched, next, end, NextWeekday(weekday), prefs);
      DayGapsWellFormed(sched, current, weekday, prefs);
      assert forall g | g in rest :: DateOf(current) < g.date;
      DatesAscendConcat(day, rest, DateOf(current));
    }
  }

  /** A day with nothing scheduled (or missing from the schedule) yields
      exactly one gap: the whole window from 06:00 to 02:00 the next
      morning, 1200 minutes long. */
  lemma EmptyDayGaps(sched: ScheduleDict, current: int, weekday: Weekday, prefs: seq<TimeOfDay>)
    requires current % MinutesPerDay == 0
    requires sched.Get(DateOf(current)) == []
    ensures var r := DayGaps(sched, current, weekday, prefs);
            && |r| == 1
            && r[0].date == DateOf(current)
            && r[0].gapStart == WindowStart(DateOf(current))
            && r[0].gapEnd == WindowEnd(DateOf(current))
            && r[0].durationMinutes == 20 * 60
            && Clock(r[0].gapStart) == (6, 0)
            && Clock(r[0].gapEnd) == (2, 0)
  {
    var d := DateOf(current);
    assert current == Midnight(d);
    assert SortByStart([]) == [];
    var r := DayGaps(sched, current, weekday, prefs);
    assert r == [GapEntry(d, current + DayStartOffset, current + DayEndOffset, prefs, current, weekday)];
    WindowClock(d);
  }

  lemma WindowClock(d: Date)
    ensures Clock(WindowStart(d)) == (6, 0)
    ensures Clock(WindowEnd(d)) == (2, 0)
  {
    ClockAt(d, DayStartOffset);
    ClockAt(d + 1, 120);
  }

  /** Over an empty schedule every day of an `n`-day range yields exactly
      one gap, the whole window of that day, in date order. */
  lemma {:induction false} EmptyScheduleOneGapPerDay(current: int, n: nat, weekday: Weekday, prefs: seq<TimeOfDay>)
    requires current % MinutesPerDay == 0
    decreases n
    ensures var r := ScheduleGaps(EmptySchedule, current, current + n * MinutesPerDay, weekday, prefs);
            && |r| == n
            && forall i | 0 <= i < n ::
                 && r[i].date == DateOf(current) + i
                 && r[i].gapStart == WindowStart(DateOf(current) + i)
                 && r[i].gapEnd == WindowEnd(DateOf(current) + i)
  {
    if n > 0 {
      var next := current + MinutesPerDay;
      assert next + (n - 1) * MinutesPerDay == current + n * MinutesPerDay;
      assert DateOf(next) == DateOf(current) + 1;
      EmptyDayGaps(EmptySchedule, current, weekday, prefs);
      EmptyScheduleOneGapPerDay(next, n - 1, NextWeekday(weekday), prefs);
    }
  }

  /** A start-sorted list without overlaps whose slots are non-empty is
      chained: each slot ends before any later one starts. */
  lemma SortedNoOverlapChained(s: seq<Slot>)
    requires SortedByStart(s) && NoOverlap(s)
    requires forall x | x in s :: x.start < x.end
    ensures Chained(s)
  {
    forall i, j | 0 <= i < j < |s|
      ensures s[i].end <= s[j].start
    {
      assert s[j] in s;
      assert !Overlaps(s[i].start, s[i].end, s[j]);
    }
  }

  /** A day list as `fill_time_slot` keeps it: no two slots overlap, and
      every slot is non-empty and lies in the broadcast window. */
  ghost predicate ProperDay(day: seq<Slot>, ws: int, we: int) {
    NoOverlap(day) && forall x | x in day :: ws <= x.start < x.end <= we
  }

  /** Sorting a proper day gives a chained list inside the window with the
      same slots. */
  lemma ProperDaySorted(day: seq<Slot>, ws: int, we: int)
    requires ProperDay(day, ws, we)
    ensures var sorted := SortByStart(day);
            && Chained(sorted) && InsideWindow(sorted, ws, we)
            && multiset(sorted) == multiset(day)
  {
    var sorted := SortByStart(day);
    SortByStartSortedPermutation(day);
    SortByStartNoOverlap(day);
    assert forall x | x in sorted :: x in multiset(day);
    SortedNoOverlapChained(sorted);
    forall k | 0 <= k < |sorted|
      ensures ws <= sorted[k].start && sorted[k].end <= we
    {
      assert sorted[k] in multiset(day);
    }
  }

  lemma DayGapsInWindow(sched: ScheduleDict, current: int, weekday: Weekday, prefs: seq<TimeOfDay>)
    requires ProperDay(sched.Get(DateOf(current)), current + DayStartOffset, current + DayEndOffset)
    ensures forall g | g in DayGaps(sched, current, weekday, prefs) ::
              current + DayStartOffset <= g.gapStart < g.gapEnd <= current + DayEndOffset
  {
    var ws, we := current + DayStartOffset, current + DayEndOffset;
    var sorted := SortByStart(sched.Get(DateOf(current)));
    ProperDaySorted(sched.Get(DateOf(current)), ws, we);
    FreeIntervalsInWindow(sorted, ws, we);
    DayGapsFields(sched, current, weekday, prefs);
    var ivs := FreeIntervals(sorted, ws, we);
    var gaps := DayGaps(sched, current, weekday, prefs);
    forall g | g in gaps
      ensures ws <= g.gapStart < g.gapEnd <= we
    {
      var k :| 0 <= k < |gaps| && gaps[k] == g;
      assert ivs[k] in ivs;
    }
  }

  lemma DayGapsOrdered(sched: ScheduleDict, current: int, weekday: Weekday, prefs: seq<TimeOfDay>)
    requires ProperDay(sched.Get(DateOf(current)), current + DayStartOffset, current + DayEndOffset)
    ensures var gaps := DayGaps(sched, current, weekday, prefs);
            forall i, j | 0 <= i < j < |gaps| :: gaps[i].gapEnd < gaps[j].gapStart
  {
    var ws, we := current + DayStartOffset, current + DayEndOffset;
    var sorted := SortByStart(sched.Get(DateOf(current)));
    ProperDaySorted(sched.Get(DateOf(current)), ws, we);
    FreeIntervalsOrdered(sorted, ws, we);
    DayGapsFields(sched, current, weekday, prefs);
  }

  /** The entries `gaps` span the intervals `ivs`, one for one. */
  ghost predicate Spans(gaps: seq<Gap>, ivs: seq<Interval>) {
    && |gaps| == |ivs|
    && forall k | 0 <= k < |gaps| :: gaps[k].gapStart == ivs[k].start && gaps[k].gapEnd == ivs[k].end
  }

  lemma SpansAvoid(gaps: seq<Gap>, ivs: seq<Interval>, day: seq<Slot>, sorted: seq<Slot>)
    requires Spans(gaps, ivs) && multiset(sorted) == multiset(day)
    requires forall g, k | g in ivs && 0 <= k < |sorted| :: g.end <= sorted[k].start || sorted[k].end <= g.start
    ensures forall g, x | g in gaps && x in day :: g.gapEnd <= x.start || x.end <= g.gapStart
  {
    forall g, x | g in gaps && x in day
      ensures g.gapEnd <= x.start || x.end <= g.gapStart
    {
      var k :| 0 <= k < |gaps| && gaps[k] == g;
      assert ivs[k] in ivs;
      assert x in multiset(sorted);
      var m :| 0 <= m < |sorted| && sorted[m] == x;
    }
  }

  lemma SpansCover(gaps: seq<Gap>, ivs: seq<Interval>, day: seq<Slot>, sorted: seq<Slot>, ws: int, we: int)
    requires Spans(gaps, ivs) && multiset(sorted) == multiset(day)
    requires forall t | ws <= t < we :: InInterval(ivs, t) || InSlot(sorted, t)
    ensures forall t | ws <= t < we :: InGap(gaps, t) || InSlot(day, t)
  {
    forall t | ws <= t < we
      ensures InGap(gaps, t) || InSlot(day, t)
    {
      if InInterval(ivs, t) {
        var iv :| iv in ivs && iv.start <= t < iv.end;
        var k :| 0 <= k < |ivs| && ivs[k] == iv;
        assert gaps[k] in gaps;
      } else {
        var x :| x in sorted && x.start <= t < x.end;
        assert x in multiset(day);
      }
    }
  }

  lemma DayGapsSpan(sched: ScheduleDict, current: int, weekday: Weekday, prefs: seq<TimeOfDay>)
    ensures Spans(DayGaps(sched, current, weekday, prefs),
                  FreeIntervals(SortByStart(sched.Get(DateOf(current))), current + DayStartOffset, current + DayEndOffset))
  {
    DayGapsFields(sched, current, weekday, prefs);
  }

  lemma DayGapsAvoidSlots(sched: ScheduleDict, current: int, weekday: Weekday, prefs: seq<TimeOfDay>)
    requires ProperDay(sched.Get(DateOf(current)), current + DayStartOffset, current + DayEndOffset)
    ensures forall g, x | g in DayGaps(sched, current, weekday, prefs) && x in sched.Get(DateOf(current)) ::
              g.gapEnd <= x.start || x.end <= g.gapStart
  {
    var ws, we := current + DayStartOffset, current + DayEndOffset;
    var day := sched.Get(DateOf(current));
    var sorted := SortByStart(day);
    ProperDaySorted(day, ws, we);
    FreeIntervalsAvoidSlots(sorted, ws, we);
    DayGapsSpan(sched, current, weekday, prefs);
    SpansAvoid(DayGaps(sched, current, weekday, prefs), FreeIntervals(sorted, ws, we), day, sorted);
  }

  lemma DayGapsCoverWindow(sched: ScheduleDict, current: int, weekday: Weekday, prefs: seq<TimeOfDay>)
    requires ProperDay(sched.Get(DateOf(current)), current + DayStartOffset, current + DayEndOffset)
    ensures forall t | current + DayStartOffset <= t < current + DayEndOffset ::
              InGap(DayGaps(sched, current, weekday, prefs), t) || InSlot(sched.Get(DateOf(current)), t)
  {
    var ws, we := current + DayStartOffset, current + DayEndOffset;
    var day := sched.Get(DateOf(current));
    var sorted := SortByStart(day);
    ProperDaySorted(day, ws, we);
    FreeIntervalsCoverWindow(sorted, ws, we);
    DayGapsSpan(sched, current, weekday, prefs);
    SpansCover(DayGaps(sched, current, weekday, prefs), FreeIntervals(sorted, ws, we), day, sorted, ws, we);
  }

  /** When a day's slots are proper, its reported gaps and its slots tile
      the window: every gap lies in the window, gaps come in time order
      without touching, no gap shares a minute with a slot, and every minute
      of the window is in a gap or in a slot. */
  lemma DayGapsTileWindow(sched: ScheduleDict, current: int, weekday: Weekday, prefs: seq<TimeOfDay>)
    requires ProperDay(sched.Get(DateOf(current)), current + DayStartOffset, current + DayEndOffset)
    ensures var day := sched.Get(DateOf(current));
            var gaps := DayGaps(sched, current, weekday, prefs);
            var ws, we := current + DayStartOffset, current + DayEndOffset;
            && (forall g | g in gaps :: ws <= g.gapStart < g.gapEnd <= we)
            && (forall i, j | 0 <= i < j < |gaps| :: gaps[i].gapEnd < gaps[j].gapStart)
            && (forall g, x | g in gaps && x in day :: g.gapEnd <= x.start || x.end <= g.gapStart)
            && (forall t | ws <= t < we :: InGap(gaps, t) || InSlot(day, t))
  {
    DayGapsInWindow(sched, current, weekday, prefs);
    DayGapsOrdered(sched, current, weekday, prefs);
    DayGapsAvoidSlots(sched, current, weekday, prefs);
    DayGapsCoverWindow(sched, current, weekday, prefs);
  }
}
