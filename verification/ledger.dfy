/**
 * The doctor service's slot ledger: a map from slot id to slot record, with
 * the reserve and release operations the appointment service calls, manual
 * slot creation with its overlap check, and daily slot generation.
 */
module SlotLedger {
  import opened Wrappers
  import opened Common

  datatype DoctorStatus = Active | OnLeave | Inactive

  /** The part of a doctor record the slot operations read. */
  datatype Doctor = Doctor(status: DoctorStatus)

  type Doctors = map<DoctorId, Doctor>

  /** One bookable time window of one doctor. */
  datatype Slot = Slot(
    doctorId: DoctorId,
    start: Minute,
    end: Minute,
    isBooked: bool,
    appointmentId: Option<ApptId>)

  type Ledger = map<SlotId, Slot>

  /** A slot is booked exactly when it records the appointment holding it. */
  predicate SlotConsistent(s: Slot) {
    s.isBooked <==> s.appointmentId.Some?
  }

  predicate Consistent(l: Ledger) {
    forall id :: id in l ==> SlotConsistent(l[id])
  }

  /** `findByIdAndDoctorId` finds the slot. */
  predicate OwnedBy(l: Ledger, slotId: SlotId, doctorId: DoctorId) {
    slotId in l && l[slotId].doctorId == doctorId
  }

  /** The slot is booked and records `apptId` as its holder. */
  predicate HeldBy(l: Ledger, slotId: SlotId, apptId: ApptId) {
    slotId in l && l[slotId].isBooked && l[slotId].appointmentId == Some(apptId)
  }

  /** Same doctor and the same time window. */
  predicate SameWindow(s: Slot, t: Slot) {
    s.doctorId == t.doctorId && s.start == t.start && s.end == t.end
  }

  /** `l'` differs from `l` at most in the booking fields of slot `slotId`. */
  predicate OnlyBookingOf(l: Ledger, l': Ledger, slotId: SlotId) {
    && l'.Keys == l.Keys
    && (forall id :: id in l && id != slotId ==> l'[id] == l[id])
    && (slotId in l ==> SameWindow(l[slotId], l'[slotId]))
  }

  /**
   * `markSlotBooked`: reserve a slot for an appointment. Reserving a slot
   * already held by the same appointment succeeds without change, so a
   * retried or same-slot reschedule is harmless.
   */
  function MarkSlotBooked(l: Ledger, slotId: SlotId, doctorId: DoctorId, apptId: ApptId): (r: Result<Ledger, Error>)
    ensures r.Ok? <==> OwnedBy(l, slotId, doctorId) && (!l[slotId].isBooked || l[slotId].appointmentId == Some(apptId))
    ensures !OwnedBy(l, slotId, doctorId) ==> r == Err(NotFound)
    ensures r.Err? && OwnedBy(l, slotId, doctorId) ==> r == Err(BadRequest(SlotTaken))
    ensures r.Ok? ==> HeldBy(r.value, slotId, apptId) && OnlyBookingOf(l, r.value, slotId)
    ensures HeldBy(l, slotId, apptId) && r.Ok? ==> r.value == l
    ensures Consistent(l) && r.Ok? ==> Consistent(r.value)
  {
    if !OwnedBy(l, slotId, doctorId) then Err(NotFound)
    else
      var slot := l[slotId];
      if slot.isBooked then
        if slot.appointmentId == Some(apptId) then Ok(l)
        else Err(BadRequest(SlotTaken))
      else
        Ok(l[slotId := slot.(isBooked := true, appointmentId := Some(apptId))])
  }

  /**
   * `markSlotUnbooked`: release a slot. Only the appointment recorded as
   * the holder may release it.
   */
  function MarkSlotUnbooked(l: Ledger, slotId: SlotId, doctorId: DoctorId, apptId: ApptId): (r: Result<Ledger, Error>)
    ensures r.Ok? <==> OwnedBy(l, slotId, doctorId) && HeldBy(l, slotId, apptId)
    ensures !OwnedBy(l, slotId, doctorId) ==> r == Err(NotFound)
    ensures OwnedBy(l, slotId, doctorId) && !l[slotId].isBooked ==> r == Err(BadRequest(SlotNotBooked))
    ensures OwnedBy(l, slotId, doctorId) && l[slotId].isBooked && l[slotId].appointmentId != Some(apptId) ==> r == Err(Forbidden)
    ensures r.Ok? ==> OnlyBookingOf(l, r.value, slotId) && slotId in r.value && !r.value[slotId].isBooked && r.value[slotId].appointmentId.None?
    ensures Consistent(l) && r.Ok? ==> Consistent(r.value)
  {
    if !OwnedBy(l, slotId, doctorId) then Err(NotFound)
    else
      var slot := l[slotId];
      if !slot.isBooked then Err(BadRequest(SlotNotBooked))
      else if slot.appointmentId.None? || slot.appointmentId.value != apptId then Err(Forbidden)
      else Ok(l[slotId := slot.(isBooked := false, appointmentId := None)])
  }

  /** Reserving twice with the same arguments gives the same answer and the same ledger. */
  lemma ReserveIdempotent(l: Ledger, slotId: SlotId, doctorId: DoctorId, apptId: ApptId)
    requires MarkSlotBooked(l, slotId, doctorId, apptId).Ok?
    ensures MarkSlotBooked(MarkSlotBooked(l, slotId, doctorId, apptId).value, slotId, doctorId, apptId)
            == MarkSlotBooked(l, slotId, doctorId, apptId)
  {
    var l1 := MarkSlotBooked(l, slotId, doctorId, apptId).value;
    assert HeldBy(l1, slotId, apptId) && OwnedBy(l1, slotId, doctorId);
  }

  /** A reservation held by someone else is never disturbed by reserve or release. */
  lemma ForeignHoldIsStable(l: Ledger, slotId: SlotId, doctorId: DoctorId, apptId: ApptId, other: ApptId)
    requires other != apptId && HeldBy(l, slotId, other)
    ensures MarkSlotBooked(l, slotId, doctorId, apptId).Err?
    ensures MarkSlotUnbooked(l, slotId, doctorId, apptId).Err?
  {
  }

  /**
   * Reserve followed by release by the same appointment returns a free,
   * consistent slot to exactly the state it started in.
   */
  lemma ReserveThenReleaseRestores(l: Ledger, slotId: SlotId, doctorId: DoctorId, apptId: ApptId)
    requires Consistent(l) && OwnedBy(l, slotId, doctorId) && !l[slotId].isBooked
    ensures MarkSlotBooked(l, slotId, doctorId, apptId).Ok?
    ensures MarkSlotUnbooked(MarkSlotBooked(l, slotId, doctorId, apptId).value, slotId, doctorId, apptId) == Ok(l)
  {
    var l1 := MarkSlotBooked(l, slotId, doctorId, apptId).value;
    var l2 := MarkSlotUnbooked(l1, slotId, doctorId, apptId).value;
    assert l2[slotId] == l[slotId];
    assert l2 == l;
  }

  // ---------------------------------------------------------------- creation

  /** The body of a slot-creation request. Its `isBooked` flag is ignored. */
  datatype SlotRequest = SlotRequest(doctorId: DoctorId, start: Minute, end: Minute, appointmentId: Option<ApptId>)

  /** The two windows share at least one minute. */
  predicate Overlaps(start: Minute, end: Minute, s: Slot) {
    start < s.end && end > s.start
  }

  /**
   * `findByDoctorIdAndStartTimeBetweenAndIsBookedFalse(doctorId, start - 1,
   * end + 1)`: a free slot of the doctor whose START lies in the widened,
   * inclusive window.
   */
  predicate InLookupWindow(s: Slot, doctorId: DoctorId, start: Minute, end: Minute) {
    s.doctorId == doctorId && !s.isBooked && start - 1 <= s.start <= end + 1
  }

  /** The overlap the service detects: only among the slots the lookup returns. */
  predicate DetectedOverlap(l: Ledger, doctorId: DoctorId, start: Minute, end: Minute) {
    exists id :: id in l && InLookupWindow(l[id], doctorId, start, end) && Overlaps(start, end, l[id])
  }

  /** The table's unique constraint on (doctor, start, end). */
  predicate SameWindowExists(l: Ledger, doctorId: DoctorId, start: Minute, end: Minute) {
    exists id :: id in l && l[id].doctorId == doctorId && l[id].start == start && l[id].end == end
  }

  /**
   * `createDoctorSlot`, with the id the database generates passed in as
   * `newId`. The new slot is stored unbooked but keeps the request's
   * appointment id.
   */
  function CreateDoctorSlot(doctors: Doctors, l: Ledger, doctorId: DoctorId, req: SlotRequest, newId: SlotId): (r: Result<Ledger, Error>)
    requires newId !in l
    ensures doctorId !in doctors ==> r == Err(NotFound)
    ensures r.Ok? <==>
              && doctorId in doctors
              && req.doctorId == doctorId
              && req.start < req.end
              && !DetectedOverlap(l, doctorId, req.start, req.end)
              && !SameWindowExists(l, doctorId, req.start, req.end)
    ensures doctorId in doctors && req.doctorId != doctorId ==> r == Err(BadRequest(DoctorMismatch))
    ensures doctorId in doctors && req.doctorId == doctorId && req.start >= req.end ==> r == Err(BadRequest(EmptyInterval))
    ensures doctorId in doctors && req.doctorId == doctorId && req.start < req.end && DetectedOverlap(l, doctorId, req.start, req.end) ==>
              r == Err(BadRequest(Overlap))
    ensures doctorId in doctors && req.doctorId == doctorId && req.start < req.end &&
            !DetectedOverlap(l, doctorId, req.start, req.end) && SameWindowExists(l, doctorId, req.start, req.end) ==>
              r == Err(Duplicate)
    ensures r.Ok? ==>
              && r.value.Keys == l.Keys + {newId}
              && (forall id :: id in l ==> r.value[id] == l[id])
              && r.value[newId] == Slot(doctorId, req.start, req.end, false, req.appointmentId)
    ensures r.Ok? ==> forall id :: id in l && InLookupWindow(l[id], doctorId, req.start, req.end) ==> !Overlaps(req.start, req.end, l[id])
    ensures Consistent(l) && req.appointmentId.None? && r.Ok? ==> Consistent(r.value)
  {
    if doctorId !in doctors then Err(NotFound)
    else if req.doctorId != doctorId then Err(BadRequest(DoctorMismatch))
    else if req.start >= req.end then Err(BadRequest(EmptyInterval))
    else if DetectedOverlap(l, doctorId, req.start, req.end) then Err(BadRequest(Overlap))
    else if SameWindowExists(l, doctorId, req.start, req.end) then Err(Duplicate)
    else Ok(l[newId := Slot(doctorId, req.start, req.end, false, req.appointmentId)])
  }

  /**
   * The unique key only fires behind the overlap check for a window that is
   * already taken by a BOOKED slot: a free slot with the same window lies in
   * the lookup and overlaps, so it is refused as an overlap first.
   */
  lemma {:induction false} DuplicateOnlyForBookedTwin(doctors: Doctors, l: Ledger, doctorId: DoctorId, req: SlotRequest, newId: SlotId)
    requires newId !in l
    requires CreateDoctorSlot(doctors, l, doctorId, req, newId) == Err(Duplicate)
    ensures SameWindowExists(l, doctorId, req.start, req.end)
    ensures forall id :: id in l && l[id].doctorId == doctorId && l[id].start == req.start && l[id].end == req.end ==> l[id].isBooked
  {
    forall id | id in l && l[id].doctorId == doctorId && l[id].start == req.start && l[id].end == req.end
      ensures l[id].isBooked
    {
      if !l[id].isBooked {
        assert InLookupWindow(l[id], doctorId, req.start, req.end) && Overlaps(req.start, req.end, l[id]);
      }
    }
  }

  /**
   * Creation does not establish the ledger invariant: a request carrying an
   * appointment id yields an unbooked slot that names a holder.
   */
  lemma CreateCanBreakConsistency()
    ensures var l: Ledger := map[];
            var r := CreateDoctorSlot(map[1 := Doctor(Active)], l, 1, SlotRequest(1, 600, 630, Some(9)), 5);
            Consistent(l) && r.Ok? && !Consistent(r.value)
  {
    var r := CreateDoctorSlot(map[1 := Doctor(Active)], map[], 1, SlotRequest(1, 600, 630, Some(9)), 5);
    assert !SlotConsistent(r.value[5]);
  }

  /** No two slots of one doctor share a minute. */
  predicate NoDoubleBooking(l: Ledger) {
    forall a, b :: a in l && b in l && a != b && l[a].doctorId == l[b].doctorId ==> !Overlaps(l[a].start, l[a].end, l[b])
  }

  /**
   * The overlap check the creation code evidently intends: every slot of
   * the doctor, booked or not, wherever it starts.
   */
  predicate AnyOverlap(l: Ledger, doctorId: DoctorId, start: Minute, end: Minute) {
    exists id :: id in l && l[id].doctorId == doctorId && Overlaps(start, end, l[id])
  }

  /** `createDoctorSlot` with the intended overlap check; it keeps a doctor's slots disjoint. */
  function CreateDoctorSlotChecked(doctors: Doctors, l: Ledger, doctorId: DoctorId, req: SlotRequest, newId: SlotId): (r: Result<Ledger, Error>)
    requires newId !in l
    ensures r.Ok? <==>
              && doctorId in doctors
              && req.doctorId == doctorId
              && req.start < req.end
              && !AnyOverlap(l, doctorId, req.start, req.end)
    ensures r.Ok? ==>
              && r.value.Keys == l.Keys + {newId}
              && (forall id :: id in l ==> r.value[id] == l[id])
              && r.value[newId] == Slot(doctorId, req.start, req.end, false, req.appointmentId)
    ensures NoDoubleBooking(l) && r.Ok? ==> NoDoubleBooking(r.value)
  {
    if doctorId !in doctors then Err(NotFound)
    else if req.doctorId != doctorId then Err(BadRequest(DoctorMismatch))
    else if req.start >= req.end then Err(BadRequest(EmptyInterval))
    else if AnyOverlap(l, doctorId, req.start, req.end) then Err(BadRequest(Overlap))
    else Ok(l[newId := Slot(doctorId, req.start, req.end, false, req.appointmentId)])
  }

  /**
   * The check as written admits a slot nested inside a free slot that
   * starts more than a minute earlier: 09:00-10:00 is free, and 09:20-09:40
   * is accepted beside it. The intended check rejects it.
   */
  lemma OverlapCheckMissesEarlierSlot()
    ensures var l: Ledger := map[1 := Slot(7, 540, 600, false, None)];
            var docs: Doctors := map[7 := Doctor(Active)];
            var req := SlotRequest(7, 560, 580, None);
            && NoDoubleBooking(l)
            && CreateDoctorSlot(docs, l, 7, req, 2).Ok?
            && !NoDoubleBooking(CreateDoctorSlot(docs, l, 7, req, 2).value)
            && CreateDoctorSlotChecked(docs, l, 7, req, 2) == Err(BadRequest(Overlap))
  {
    var l: Ledger := map[1 := Slot(7, 540, 600, false, None)];
    var docs: Doctors := map[7 := Doctor(Active)];
    var req := SlotRequest(7, 560, 580, None);
    assert !InLookupWindow(l[1], 7, 560, 580);
    assert !DetectedOverlap(l, 7, 560, 580);
    assert !SameWindowExists(l, 7, 560, 580);
    var l' := CreateDoctorSlot(docs, l, 7, req, 2).value;
    assert l'[1] == l[1] && l'[2] == Slot(7, 560, 580, false, None);
    assert Overlaps(l'[1].start, l'[1].end, l'[2]);
    assert AnyOverlap(l, 7, 560, 580);
  }

  /** A booked slot is invisible to the check as written, even at the same start. */
  lemma OverlapCheckIgnoresBookedSlot()
    ensures var l: Ledger := map[1 := Slot(7, 540, 600, true, Some(3))];
            var req := SlotRequest(7, 540, 570, None);
            CreateDoctorSlot(map[7 := Doctor(Active)], l, 7, req, 2).Ok?
  {
    var l: Ledger := map[1 := Slot(7, 540, 600, true, Some(3))];
    assert !InLookupWindow(l[1], 7, 540, 570);
    assert !DetectedOverlap(l, 7, 540, 570);
    assert !SameWindowExists(l, 7, 540, 570);
  }
}
