/**
 * `generateSlotsForDoctor`: tile a daily window of every date in a range
 * into back-to-back slots of a fixed length.
 */
module SlotGeneration {
  import opened Wrappers
  import opened Common
  import opened SlotLedger

  /** A `LocalTime`, truncated to whole minutes since midnight. */
  type TimeOfDay = t: int | 0 <= t < 1440

  /** `LocalDateTime.of(date, time)`, with dates counted in days. */
  function At(date: int, t: TimeOfDay): Minute {
    date * MinutesPerDay + t
  }

  /**
   * The slots of one day: starting at `from`, add a slot while the next one
   * still ends no later than `dayEnd`.
   */
  function DaySlots(doctorId: DoctorId, from: Minute, dayEnd: Minute, duration: int): seq<Slot>
    requires duration > 0
    decreases dayEnd - from
  {
    if from + duration < dayEnd + 1 then
      [Slot(doctorId, from, from + duration, false, None)] + DaySlots(doctorId, from + duration, dayEnd, duration)
    else
      []
  }

  /** The slots of every date from `date` to `endDate` inclusive, day after day. */
  function RangeSlots(doctorId: DoctorId, date: int, endDate: int, startTime: TimeOfDay, endTime: TimeOfDay, duration: int): seq<Slot>
    requires duration > 0
    decreases endDate - date + 1
  {
    if date > endDate then []
    else DaySlots(doctorId, At(date, startTime), At(date, endTime), duration)
         + RangeSlots(doctorId, date + 1, endDate, startTime, endTime, duration)
  }

  /** Every generated slot is a free slot of the doctor lasting exactly `duration`. */
  predicate FreshSlot(s: Slot, doctorId: DoctorId, duration: int) {
    s.doctorId == doctorId && !s.isBooked && s.appointmentId.None? && s.end == s.start + duration
  }

  predicate AllFresh(s: seq<Slot>, doctorId: DoctorId, duration: int) {
    forall i :: 0 <= i < |s| ==> FreshSlot(s[i], doctorId, duration)
  }

  /** Each slot ends no later than any later slot starts: time order, no overlap. */
  predicate Ordered(s: seq<Slot>) {
    forall i, j :: 0 <= i < j < |s| ==> s[i].end <= s[j].start
  }

  /** Each slot ends exactly where the next one starts. */
  predicate Abutting(s: seq<Slot>) {
    forall i :: 0 <= i < |s| - 1 ==> s[i].end == s[i + 1].start
  }

  predicate Within(s: seq<Slot>, lo: Minute, hi: Minute) {
    forall i :: 0 <= i < |s| ==> lo <= s[i].start && s[i].end <= hi
  }

  /** The slot lies inside the daily window of some date from `date` to `endDate`. */
  predicate InSomeDay(x: Slot, date: int, endDate: int, startTime: TimeOfDay, endTime: TimeOfDay) {
    exists d :: date <= d <= endDate && At(d, startTime) <= x.start && x.end <= At(d, endTime)
  }

  predicate AllInDays(s: seq<Slot>, date: int, endDate: int, startTime: TimeOfDay, endTime: TimeOfDay) {
    forall i :: 0 <= i < |s| ==> InSomeDay(s[i], date, endDate, startTime, endTime)
  }

  /**
   * One day's slots are fresh, start at `from`, never end after `dayEnd`,
   * and leave no room for one more slot.
   */
  lemma {:induction false} DaySlotsBounds(doctorId: DoctorId, from: Minute, dayEnd: Minute, duration: int)
    requires duration > 0
    ensures AllFresh(DaySlots(doctorId, from, dayEnd, duration), doctorId, duration)
    ensures Within(DaySlots(doctorId, from, dayEnd, duration), from, dayEnd)
    ensures |DaySlots(doctorId, from, dayEnd, duration)| > 0 ==> DaySlots(doctorId, from, dayEnd, duration)[0].start == from
    ensures var s := DaySlots(doctorId, from, dayEnd, duration);
            (if |s| == 0 then from else s[|s| - 1].end) + duration > dayEnd
    decreases dayEnd - from
  {
    var s := DaySlots(doctorId, from, dayEnd, duration);
    if from + duration < dayEnd + 1 {
      var next := from + duration;
      var t := DaySlots(doctorId, next, dayEnd, duration);
      DaySlotsBounds(doctorId, next, dayEnd, duration);
      assert s == [Slot(doctorId, from, next, false, None)] + t;
      forall i | 0 <= i < |s|
        ensures FreshSlot(s[i], doctorId, duration) && from <= s[i].start && s[i].end <= dayEnd
      {
        if i > 0 {
          assert s[i] == t[i - 1];
        }
      }
      assert |s| > 0 && s[|s| - 1] == (if |t| == 0 then s[0] else t[|t| - 1]);
    }
  }

  /** One day's slots follow each other without gaps, in time order. */
  lemma {:induction false} DaySlotsAbut(doctorId: DoctorId, from: Minute, dayEnd: Minute, duration: int)
    requires duration > 0
    ensures Abutting(DaySlots(doctorId, from, dayEnd, duration))
    ensures Ordered(DaySlots(doctorId, from, dayEnd, duration))
    decreases dayEnd - from
  {
    var s := DaySlots(doctorId, from, dayEnd, duration);
    if from + duration < dayEnd + 1 {
      var next := from + duration;
      var t := DaySlots(doctorId, next, dayEnd, duration);
      DaySlotsAbut(doctorId, next, dayEnd, duration);
      DaySlotsBounds(doctorId, next, dayEnd, duration);
      assert s == [Slot(doctorId, from, next, false, None)] + t;
      forall i | 0 <= i < |s| - 1
        ensures s[i].end == s[i + 1].start
      {
        if i > 0 {
          assert s[i] == t[i - 1] && s[i + 1] == t[i];
        }
      }
      forall i, j | 0 <= i < j < |s|
        ensures s[i].end <= s[j].start
      {
        assert s[j] == t[j - 1];
        if i > 0 {
          assert s[i] == t[i - 1];
        }
      }
    }
  }

  /**
   * Over a range of dates: every slot is fresh, lies inside the window of
   * one of the dates, and the slots are in time order without overlap.
   */
  lemma {:induction false} RangeSlotsShape(doctorId: DoctorId, date: int, endDate: int, startTime: TimeOfDay, endTime: TimeOfDay, duration: int)
    requires duration > 0
    ensures AllFresh(RangeSlots(doctorId, date, endDate, startTime, endTime, duration), doctorId, duration)
    ensures Within(RangeSlots(doctorId, date, endDate, startTime, endTime, duration), At(date, startTime), At(endDate, endTime))
    ensures AllInDays(RangeSlots(doctorId, date, endDate, startTime, endTime, duration), date, endDate, startTime, endTime)
    ensures Ordered(RangeSlots(doctorId, date, endDate, startTime, endTime, duration))
    decreases endDate - date + 1
  {
    var s := RangeSlots(doctorId, date, endDate, startTime, endTime, duration);
    if date <= endDate {
      var a := DaySlots(doctorId, At(date, startTime), At(date, endTime), duration);
      var b := RangeSlots(doctorId, date + 1, endDate, startTime, endTime, duration);
      DaySlotsBounds(doctorId, At(date, startTime), At(date, endTime), duration);
      DaySlotsAbut(doctorId, At(date, startTime), At(date, endTime), duration);
      RangeSlotsShape(doctorId, date + 1, endDate, startTime, endTime, duration);
      assert s == a + b;
      assert At(date, endTime) < At(date + 1, startTime);
      assert At(date, endTime) <= At(endDate, endTime);
      forall i | 0 <= i < |s|
        ensures FreshSlot(s[i], doctorId, duration)
        ensures At(date, startTime) <= s[i].start && s[i].end <= At(endDate, endTime)
        ensures InSomeDay(s[i], date, endDate, startTime, endTime)
      {
        if i < |a| {
          assert s[i] == a[i];
          assert At(date, startTime) <= s[i].start && s[i].end <= At(date, endTime);
        } else {
          var k := i - |a|;
          assert s[i] == b[k];
          assert InSomeDay(b[k], date + 1, endDate, startTime, endTime);
          var d :| date + 1 <= d <= endDate && At(d, startTime) <= b[k].start && b[k].end <= At(d, endTime);
          assert At(date, startTime) <= At(d, startTime);
        }
      }
      forall i, j | 0 <= i < j < |s|
        ensures s[i].end <= s[j].start
      {
        if j < |a| {
          assert s[i] == a[i] && s[j] == a[j];
        } else if i < |a| {
          assert s[i] == a[i] && s[j] == b[j - |a|];
          assert s[i].end <= At(date, endTime);
          assert At(date + 1, startTime) <= b[j - |a|].start;
        } else {
          assert s[i] == b[i - |a|] && s[j] == b[j - |a|];
        }
      }
    }
  }

  /**
   * `generateSlotsForDoctor`: reject a missing or inactive doctor, a
   * non-positive duration and an empty daily window; otherwise produce the
   * unsaved slots, date by date.
   */
  method GenerateSlotsForDoctor(doctors: Doctors, doctorId: DoctorId, startDate: int, endDate: int,
                                startTime: TimeOfDay, endTime: TimeOfDay, duration: int)
    returns (r: Result<seq<Slot>, Error>)
    ensures doctorId !in doctors ==> r == Err(NotFound)
    ensures doctorId in doctors && doctors[doctorId].status != Active ==> r == Err(BadRequest(DoctorInactive))
    ensures doctorId in doctors && doctors[doctorId].status == Active && duration <= 0 ==> r == Err(BadRequest(NonPositiveDuration))
    ensures doctorId in doctors && doctors[doctorId].status == Active && duration > 0 && startTime >= endTime
            ==> r == Err(BadRequest(EmptyInterval))
    ensures r.Ok? <==> doctorId in doctors && doctors[doctorId].status == Active && duration > 0 && startTime < endTime
    ensures r.Ok? ==> duration > 0 && r.value == RangeSlots(doctorId, startDate, endDate, startTime, endTime, duration)
    ensures r.Ok? ==> AllFresh(r.value, doctorId, duration)
    ensures r.Ok? ==> AllInDays(r.value, startDate, endDate, startTime, endTime)
    ensures r.Ok? ==> Ordered(r.value)
  {
    if doctorId !in doctors {
      return Err(NotFound);
    }
    if doctors[doctorId].status != Active {
      return Err(BadRequest(DoctorInactive));
    }
    if duration <= 0 {
      return Err(BadRequest(NonPositiveDuration));
    }
    if startTime >= endTime {
      return Err(BadRequest(EmptyInterval));
    }
    ghost var all := RangeSlots(doctorId, startDate, endDate, startTime, endTime, duration);
    var out: seq<Slot> := [];
    var date := startDate;
    while date <= endDate
      invariant startDate <= date && (startDate <= endDate ==> date <= endDate + 1)
      invariant out + RangeSlots(doctorId, date, endDate, startTime, endTime, duration) == all
      decreases endDate - date + 1
    {
      var dayEnd := At(date, endTime);
      var slotStart := At(date, startTime);
      while slotStart + duration < dayEnd + 1
        invariant out + DaySlots(doctorId, slotStart, dayEnd, duration)
                  + RangeSlots(doctorId, date + 1, endDate, startTime, endTime, duration) == all
        decreases dayEnd - slotStart
      {
        out := out + [Slot(doctorId, slotStart, slotStart + duration, false, None)];
        slotStart := slotStart + duration;
      }
      date := date + 1;
    }
    RangeSlotsShape(doctorId, startDate, endDate, startTime, endTime, duration);
    r := Ok(out);
  }
}
