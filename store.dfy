/** `fill_time_slot`: adds one slot to a day of the schedule, which the caller
    passes by reference and the function changes in place. The slot is
    refused when it overlaps a slot already on that day; otherwise it is
    appended and the day is re-sorted by start time. */
module Store {
  import opened Wrappers
  import opened Slots

  /** The strategy `fill_time_slot` records when the caller names none. */
  const DefaultStrategy: string := "random"

  /** The slot dict built from the call's arguments. `HH:MM` strings are
      given as minutes after midnight of `d`; an omitted strategy becomes
      "random", absent filters and notes become empty lists, and every given
      field is stored as given. */
  function NewSlot(d: Date, st: TimeOfDay, et: TimeOfDay, mediaId: string, strategy: Option<string>,
                   filters: Option<seq<string>>, notes: Option<seq<string>>): (x: Slot)
    ensures x.start == Midnight(d) + st && x.end == Midnight(d) + et
    ensures x.end - x.start == et - st
    ensures x.mediaId == mediaId
    ensures strategy.None? ==> x.strategy == DefaultStrategy
    ensures strategy.Some? ==> x.strategy == strategy.value
    ensures filters.None? ==> x.categoryFilters == []
    ensures filters.Some? ==> x.categoryFilters == filters.value
    ensures notes.None? ==> x.notes == []
    ensures notes.Some? ==> x.notes == notes.value
  {
    Slot(Midnight(d) + st, Midnight(d) + et, mediaId, strategy.GetOr(DefaultStrategy), filters.GetOr([]), notes.GetOr([]))
  }

  /** The new slot's start and end fall on date `d` at the given clock
      times. */
  lemma NewSlotClock(d: Date, st: TimeOfDay, et: TimeOfDay, mediaId: string, strategy: Option<string>,
                     filters: Option<seq<string>>, notes: Option<seq<string>>)
    ensures var x := NewSlot(d, st, et, mediaId, strategy, filters, notes);
            && DateOf(x.start) == d && Clock(x.start) == (st / 60, st % 60)
            && DateOf(x.end) == d && Clock(x.end) == (et / 60, et % 60)
  {
    ClockAt(d, st);
    ClockAt(d, et);
  }

  /** The position of the first slot of `day` that overlaps `[s, e)`, if any:
      the slot the source's error message reports. */
  function FirstConflict(day: seq<Slot>, s: int, e: int): (r: Option<nat>)
    ensures r.Some? ==> r.value < |day| && Overlaps(s, e, day[r.value])
    ensures r.Some? ==> forall k | 0 <= k < r.value :: !Overlaps(s, e, day[k])
    ensures r.None? <==> forall k | 0 <= k < |day| :: !Overlaps(s, e, day[k])
  {
    if day == [] then None
    else if Overlaps(s, e, day[0]) then Some(0)
    else
      match FirstConflict(day[1..], s, e)
      case None => None
      case Some(k) => Some(k + 1)
  }

  /** The outcome of `fill_time_slot` on the schedule `sd`: the updated
      schedule, or the existing slot named by the `ValueError`. */
  function Fill(sd: ScheduleDict, d: Date, st: TimeOfDay, et: TimeOfDay, mediaId: string, strategy: Option<string>,
                filters: Option<seq<string>>, notes: Option<seq<string>>): Result<ScheduleDict, Slot>
  {
    var n := NewSlot(d, st, et, mediaId, strategy, filters, notes);
    var day := sd.Get(d);
    match FirstConflict(day, n.start, n.end)
    case Some(k) => Failure(day[k])
    case None =>
      Success(sd.Put(d, SortByStart(day + [n])))
  }

  /** The schedule dict passed to `fill_time_slot`, as an object the call
      updates: `order` is the insertion order of the date keys and `days`
      maps each key to its list of slots. */
  class Schedule {
    var order: seq<Date>
    var days: map<Date, seq<Slot>>

    ghost predicate Valid()
      reads this
    {
      Value().Valid()
    }

    function Value(): ScheduleDict
      reads this
    {
      ScheduleDict(order, days)
    }

    constructor ()
      ensures Valid() && Value() == EmptySchedule
    {
      order := [];
      days := map[];
    }

    /** `fill_time_slot`: creates the day's list when the day is missing,
        scans it for an overlapping slot, and on success appends the new
        slot and re-sorts the day by start time. */
    method FillTimeSlot(d: Date, st: TimeOfDay, et: TimeOfDay, mediaId: string, strategy: Option<string>,
                        filters: Option<seq<string>>, notes: Option<seq<string>>)
      returns (r: Result<ScheduleDict, Slot>)
      requires Valid()
      modifies this
      ensures Valid()
      ensures r == Fill(old(Value()), d, st, et, mediaId, strategy, filters, notes)
      ensures r.Success? ==> Value() == r.value
      ensures r.Failure? ==> Value() == old(Value())
    {
      var selectionStrategy := strategy.GetOr(DefaultStrategy);
      var categoryFilters := filters.GetOr([]);
      var slotNotes := notes.GetOr([]);
      ghost var sd := Value();
      if d !in days {
        days := days[d := []];
        order := order + [d];
      }
      ghost var created := Value();
      if d in sd.days {
        PutGet(sd, d);
      }
      assert created == sd.Put(d, sd.Get(d));
      var s := Midnight(d) + st;
      var e := Midnight(d) + et;
      var day := days[d];
      assert day == sd.Get(d);
      for i := 0 to |day|
        invariant forall k | 0 <= k < i :: !Overlaps(s, e, day[k])
        invariant Value() == created
      {
        if s < day[i].end && e > day[i].start {
          r := Failure(day[i]);
          FillRefused(sd, d, st, et, mediaId, strategy, filters, notes, i);
          assert Value() == sd;
          return;
        }
      }
      var n := Slot(s, e, mediaId, selectionStrategy, categoryFilters, slotNotes);
      assert n == NewSlot(d, st, et, mediaId, strategy, filters, notes);
      FillAccepted(sd, d, st, et, mediaId, strategy, filters, notes);
      days := days[d := SortByStart(day + [n])];
      assert Value() == created.Put(d, SortByStart(day + [n]));
      PutPut(sd, d, day, SortByStart(day + [n]));
      assert Value() == sd.Put(d, SortByStart(sd.Get(d) + [n]));
      r := Success(Value());
    }
  }

  /** The refusal the scan in `FillTimeSlot` reaches at the first
      overlapping slot `i` of a day that was already in the schedule. */
  lemma FillRefused(sd: ScheduleDict, d: Date, st: TimeOfDay, et: TimeOfDay, mediaId: string,
                    strategy: Option<string>, filters: Option<seq<string>>, notes: Option<seq<string>>, i: nat)
    requires i < |sd.Get(d)|
    requires Overlaps(Midnight(d) + st, Midnight(d) + et, sd.Get(d)[i])
    requires forall k | 0 <= k < i :: !Overlaps(Midnight(d) + st, Midnight(d) + et, sd.Get(d)[k])
    ensures d in sd.days
    ensures Fill(sd, d, st, et, mediaId, strategy, filters, notes) == Failure(sd.Get(d)[i])
  {
    var n := NewSlot(d, st, et, mediaId, strategy, filters, notes);
    assert n.start == Midnight(d) + st && n.end == Midnight(d) + et;
    assert FirstConflict(sd.Get(d), n.start, n.end) == Some(i);
  }

  /** The schedule the append in `FillTimeSlot` produces when no slot of the
      day overlaps the new one; it keeps the dict well formed. */
  lemma FillAccepted(sd: ScheduleDict, d: Date, st: TimeOfDay, et: TimeOfDay, mediaId: string,
                     strategy: Option<string>, filters: Option<seq<string>>, notes: Option<seq<string>>)
    requires sd.Valid()
    requires forall k | 0 <= k < |sd.Get(d)| :: !Overlaps(Midnight(d) + st, Midnight(d) + et, sd.Get(d)[k])
    ensures var n := NewSlot(d, st, et, mediaId, strategy, filters, notes);
            var r := sd.Put(d, SortByStart(sd.Get(d) + [n]));
            && Fill(sd, d, st, et, mediaId, strategy, filters, notes) == Success(r)
            && r.Valid()
  {
    var n := NewSlot(d, st, et, mediaId, strategy, filters, notes);
    assert FirstConflict(sd.Get(d), n.start, n.end) == None;
    PutValid(sd, d, SortByStart(sd.Get(d) + [n]));
  }

  // ---------------------------------------------------------------------
  // Properties of a fill
  // ---------------------------------------------------------------------

  /** A fill is refused exactly when the new slot overlaps a slot already on
      its day, and the refusal names such a slot. */
  lemma FillRejectsExactlyOverlaps(sd: ScheduleDict, d: Date, st: TimeOfDay, et: TimeOfDay, mediaId: string,
                                   strategy: Option<string>, filters: Option<seq<string>>, notes: Option<seq<string>>)
    ensures var r := Fill(sd, d, st, et, mediaId, strategy, filters, notes);
            var n := NewSlot(d, st, et, mediaId, strategy, filters, notes);
            && (r.Failure? <==> exists x :: x in sd.Get(d) && Overlaps(n.start, n.end, x))
            && (r.Failure? ==> r.error in sd.Get(d) && Overlaps(n.start, n.end, r.error))
  {
    var n := NewSlot(d, st, et, mediaId, strategy, filters, notes);
    var day := sd.Get(d);
    if exists x :: x in day && Overlaps(n.start, n.end, x) {
      var x :| x in day && Overlaps(n.start, n.end, x);
      var k :| 0 <= k < |day| && day[k] == x;
      assert FirstConflict(day, n.start, n.end).Some?;
    }
  }

  /** A successful fill puts the day's old slots plus the new one, sorted
      by start, under the day; appends the day to the key order when it was
      missing; and leaves every other day as it was. */
  lemma FillUpdatesOneDay(sd: ScheduleDict, d: Date, st: TimeOfDay, et: TimeOfDay, mediaId: string,
                          strategy: Option<string>, filters: Option<seq<string>>, notes: Option<seq<string>>)
    requires sd.Valid()
    ensures var r := Fill(sd, d, st, et, mediaId, strategy, filters, notes);
            var n := NewSlot(d, st, et, mediaId, strategy, filters, notes);
            r.Success? ==>
              && r.value.Valid()
              && SortedByStart(r.value.Get(d))
              && multiset(r.value.Get(d)) == multiset(sd.Get(d)) + multiset{n}
              && (forall d' | d' != d :: r.value.Get(d') == sd.Get(d'))
              && r.value.order == (if d in sd.order then sd.order else sd.order + [d])
  {
    var r := Fill(sd, d, st, et, mediaId, strategy, filters, notes);
    if r.Success? {
      var n := NewSlot(d, st, et, mediaId, strategy, filters, notes);
      var day := SortByStart(sd.Get(d) + [n]);
      assert r.value == sd.Put(d, day);
      SortByStartSortedPermutation(sd.Get(d) + [n]);
      PutValid(sd, d, day);
    }
  }

  /** Filling a stretch that was just filled is refused: a non-empty slot
      overlaps itself. */
  lemma FillTwiceRefused(sd: ScheduleDict, d: Date, st: TimeOfDay, et: TimeOfDay, mediaId: string,
                         strategy: Option<string>, filters: Option<seq<string>>, notes: Option<seq<string>>)
    requires st < et
    ensures var r := Fill(sd, d, st, et, mediaId, strategy, filters, notes);
            r.Success? ==> Fill(r.value, d, st, et, mediaId, strategy, filters, notes).Failure?
  {
    var r := Fill(sd, d, st, et, mediaId, strategy, filters, notes);
    if r.Success? {
      var n := NewSlot(d, st, et, mediaId, strategy, filters, notes);
      var day := SortByStart(sd.Get(d) + [n]);
      assert r.value == sd.Put(d, day);
      SortByStartSortedPermutation(sd.Get(d) + [n]);
      assert n in multiset(day);
      assert n in r.value.Get(d) && Overlaps(n.start, n.end, n);
      FillRejectsExactlyOverlaps(r.value, d, st, et, mediaId, strategy, filters, notes);
    }
  }

  /** After a successful fill the day holds a slot with exactly the
      requested date, times, media id, strategy, filters and notes, the
      omitted ones at their defaults. */
  lemma FillStoresRequestedSlot(sd: ScheduleDict, d: Date, st: TimeOfDay, et: TimeOfDay, mediaId: string,
                                strategy: Option<string>, filters: Option<seq<string>>, notes: Option<seq<string>>)
    ensures var r := Fill(sd, d, st, et, mediaId, strategy, filters, notes);
            r.Success? ==>
              exists x :: x in r.value.Get(d)
                && x.start == Midnight(d) + st && x.end == Midnight(d) + et
                && x.mediaId == mediaId && x.strategy == strategy.GetOr(DefaultStrategy)
                && x.categoryFilters == filters.GetOr([]) && x.notes == notes.GetOr([])
  {
    var r := Fill(sd, d, st, et, mediaId, strategy, filters, notes);
    if r.Success? {
      var n := NewSlot(d, st, et, mediaId, strategy, filters, notes);
      var day := SortByStart(sd.Get(d) + [n]);
      assert r.value == sd.Put(d, day);
      SortByStartSortedPermutation(sd.Get(d) + [n]);
      assert n in multiset(day);
      assert n in r.value.Get(d);
    }
  }

  /** A day without overlaps keeps that property through a fill. */
  lemma FillKeepsNoOverlap(sd: ScheduleDict, d: Date, st: TimeOfDay, et: TimeOfDay, mediaId: string,
                           strategy: Option<string>, filters: Option<seq<string>>, notes: Option<seq<string>>)
    requires NoOverlap(sd.Get(d))
    ensures var r := Fill(sd, d, st, et, mediaId, strategy, filters, notes);
            r.Success? ==> NoOverlap(r.value.Get(d))
  {
    var r := Fill(sd, d, st, et, mediaId, strategy, filters, notes);
    if r.Success? {
      var n := NewSlot(d, st, et, mediaId, strategy, filters, notes);
      var day := sd.Get(d);
      var grown := day + [n];
      forall i, j | 0 <= i < |grown| && 0 <= j < |grown| && i != j
        ensures !Overlaps(grown[i].start, grown[i].end, grown[j])
      {
        if i < |day| && j < |day| {
          assert grown[i] == day[i] && grown[j] == day[j];
        }
      }
      SortByStartNoOverlap(grown);
    }
  }

  /** A successful fill adds exactly the new slot to the whole schedule,
      and the slot count grows by one. */
  lemma FillAddsOneSlot(sd: ScheduleDict, d: Date, st: TimeOfDay, et: TimeOfDay, mediaId: string,
                        strategy: Option<string>, filters: Option<seq<string>>, notes: Option<seq<string>>)
    requires sd.Valid()
    ensures var r := Fill(sd, d, st, et, mediaId, strategy, filters, notes);
            var n := NewSlot(d, st, et, mediaId, strategy, filters, notes);
            r.Success? ==>
              && multiset(Flatten(r.value)) == multiset(Flatten(sd)) + multiset{n}
              && SlotCount(r.value) == SlotCount(sd) + 1
  {
    var n := NewSlot(d, st, et, mediaId, strategy, filters, notes);
    SortByStartSortedPermutation(sd.Get(d) + [n]);
    PutAddsOneSlot(sd, d, SortByStart(sd.Get(d) + [n]), n);
  }
}
