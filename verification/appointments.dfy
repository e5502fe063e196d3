/**
 * The appointment service: booking, cancelling and rescheduling against the
 * doctor service's slot ledger, and the general appointment listing.
 *
 * Each operation returns an `Outcome`: the appointment store and slot
 * ledger afterwards, the appointment records saved in order, the ledger
 * calls issued in order, and the reply (or the error thrown).
 */
module Appointments {
  import opened Wrappers
  import opened Common
  import opened SlotLedger
  import opened PatientReplica

  datatype Status = Scheduled | Canceled | Completed | Rescheduled | Pending | Failed

  datatype Appointment = Appointment(
    patientId: PatientId,
    doctorId: DoctorId,
    when: Minute,
    status: Status,
    slotId: Option<SlotId>)

  type Store = map<ApptId, Appointment>

  /** An appointment together with its id, as saved and as returned. */
  datatype Stored = Stored(id: ApptId, appointment: Appointment)

  /** Minimum lead time for a booking. */
  const BookLead: int := 15
  /** Cancellation closes this long before the appointment. */
  const CancelWindow: int := 60
  /** Minimum lead time for the new time of a reschedule. */
  const RescheduleLead: int := 30

  /** A request the appointment service sends to the slot ledger. */
  datatype LedgerCall =
    | Reserve(slotId: SlotId, doctorId: DoctorId, apptId: ApptId)
    | Release(slotId: SlotId, doctorId: DoctorId, apptId: ApptId)

  datatype Outcome = Outcome(store: Store, ledger: Ledger, saves: seq<Stored>, calls: seq<LedgerCall>, reply: Result<Stored, Error>)

  /** A ledger call over the network: when the network is down nothing reaches the ledger. */
  function Remote(l: Ledger, net: Transport, call: LedgerCall): (r: Result<Ledger, Error>)
    ensures net == Down ==> r == Err(Unreachable)
    ensures r.Err? ==> r.error != Forbidden || call.Release?
  {
    if net == Down then Err(Unreachable)
    else
      match call
      case Reserve(s, d, a) => MarkSlotBooked(l, s, d, a)
      case Release(s, d, a) => MarkSlotUnbooked(l, s, d, a)
  }

  /** The ledger after a call: the new ledger on success, the old one on failure. */
  function After(l: Ledger, r: Result<Ledger, Error>): Ledger {
    if r.Ok? then r.value else l
  }

  /** Nothing changed, nothing saved, nothing called: the error is all there is. */
  function Rejected(store: Store, l: Ledger, e: Error): Outcome {
    Outcome(store, l, [], [], Err(e))
  }

  // ----------------------------------------------------------------- booking

  /**
   * The booking request body. An absent or empty patient id is `None`; a
   * slot id is `None` only when it is absent.
   */
  datatype BookRequest = BookRequest(patientId: Option<PatientId>, doctorId: DoctorId, when: Minute, slotId: Option<SlotId>)

  /**
   * Whose appointment is being booked: an admin must name the patient; a
   * patient books for themselves and may only name their own id.
   */
  function ResolvePatient(userId: Option<PatientId>, isAdmin: bool, requested: Option<PatientId>): (r: Result<PatientId, Error>)
    ensures isAdmin && requested.None? ==> r == Err(BadRequest(MissingPatientId))
    ensures isAdmin && requested.Some? ==> r == Ok(requested.value)
    ensures !isAdmin ==> (r.Ok? <==> userId.Some? && (requested.None? || requested == userId))
    ensures !isAdmin && r.Ok? ==> r.value == userId.value
    ensures !isAdmin && r.Err? ==> r.error == Forbidden
  {
    if isAdmin then
      if requested.None? then Err(BadRequest(MissingPatientId)) else Ok(requested.value)
    else if requested.Some? && requested != userId then Err(Forbidden)
    else if userId.None? then Err(Forbidden)
    else Ok(userId.value)
  }

  datatype BookingPlan = BookingPlan(patientId: PatientId, slotId: SlotId)

  /** The checks made before anything is written, in the order the service makes them. */
  function CheckBooking(patients: Replica, userId: Option<PatientId>, isAdmin: bool, req: BookRequest, now: Minute): (r: Result<BookingPlan, Error>)
    ensures ResolvePatient(userId, isAdmin, req.patientId).Err? ==> r == Err(ResolvePatient(userId, isAdmin, req.patientId).error)
    ensures r.Ok? <==>
              && ResolvePatient(userId, isAdmin, req.patientId).Ok?
              && IsActive(patients, ResolvePatient(userId, isAdmin, req.patientId).value)
              && req.when >= now + BookLead
              && req.slotId.Some?
    ensures r.Ok? ==> r.value == BookingPlan(ResolvePatient(userId, isAdmin, req.patientId).value, req.slotId.value)
    ensures ResolvePatient(userId, isAdmin, req.patientId).Ok? ==>
              var p := ResolvePatient(userId, isAdmin, req.patientId).value;
              && (p !in patients ==> r == Err(NotFound))
              && (p in patients && !IsActive(patients, p) ==> r == Err(BadRequest(PatientNotActive)))
              && (IsActive(patients, p) && req.when < now + BookLead ==> r == Err(BadRequest(TooSoon)))
              && (IsActive(patients, p) && req.when >= now + BookLead && req.slotId.None? ==> r == Err(BadRequest(MissingSlotId)))
  {
    var p :- ResolvePatient(userId, isAdmin, req.patientId);
    if p !in patients then Err(NotFound)
    else if !IsActive(patients, p) then Err(BadRequest(PatientNotActive))
    else if req.when < now + BookLead then Err(BadRequest(TooSoon))
    else if req.slotId.None? then Err(BadRequest(MissingSlotId))
    else Ok(BookingPlan(p, req.slotId.value))
  }

  /**
   * `bookAppointment`: save the appointment PENDING under the new id, ask the
   * ledger to reserve the slot, then save it SCHEDULED, or FAILED and throw.
   */
  function Book(store: Store, patients: Replica, l: Ledger, userId: Option<PatientId>, isAdmin: bool,
                req: BookRequest, now: Minute, newId: ApptId, net: Transport): (o: Outcome)
    requires newId !in store
    ensures CheckBooking(patients, userId, isAdmin, req, now).Err? ==>
              o == Rejected(store, l, CheckBooking(patients, userId, isAdmin, req, now).error)
    ensures CheckBooking(patients, userId, isAdmin, req, now).Ok? ==>
              var plan := CheckBooking(patients, userId, isAdmin, req, now).value;
              var pending := Appointment(plan.patientId, req.doctorId, req.when, Pending, Some(plan.slotId));
              var call := Reserve(plan.slotId, req.doctorId, newId);
              && o.calls == [call]
              && |o.saves| == 2
              && o.saves[0] == Stored(newId, pending)
              && o.store == store[newId := pending.(status := if o.reply.Ok? then Scheduled else Failed)]
              && o.saves[1] == Stored(newId, o.store[newId])
              && (o.reply.Ok? <==> Remote(l, net, call).Ok?)
              && (o.reply.Ok? ==> o.reply.value == Stored(newId, o.store[newId]) && HeldBy(o.ledger, plan.slotId, newId))
              && (o.reply.Ok? ==> o.ledger == Remote(l, net, call).value)
              && (o.reply.Err? ==> o.ledger == l && o.reply.error == RemoteFailure(Remote(l, net, call).error))
  {
    match CheckBooking(patients, userId, isAdmin, req, now)
    case Err(e) => Rejected(store, l, e)
    case Ok(plan) =>
      var pending := Appointment(plan.patientId, req.doctorId, req.when, Pending, Some(plan.slotId));
      var call := Reserve(plan.slotId, req.doctorId, newId);
      match Remote(l, net, call)
      case Ok(l') =>
        var done := pending.(status := Scheduled);
        Outcome(store[newId := done], l', [Stored(newId, pending), Stored(newId, done)], [call], Ok(Stored(newId, done)))
      case Err(e) =>
        var failed := pending.(status := Failed);
        Outcome(store[newId := failed], l, [Stored(newId, pending), Stored(newId, failed)], [call], Err(RemoteFailure(e)))
  }

  // ------------------------------------------------------------ cancellation

  /** The caller is an admin or the appointment's own patient. */
  predicate MayChange(a: Appointment, userId: Option<PatientId>, isAdmin: bool) {
    isAdmin || userId == Some(a.patientId)
  }

  /** Load the appointment and check the caller may change it. */
  function Authorize(store: Store, apptId: ApptId, userId: Option<PatientId>, isAdmin: bool): (r: Result<Appointment, Error>)
    ensures apptId !in store ==> r == Err(NotFound)
    ensures apptId in store && !MayChange(store[apptId], userId, isAdmin) ==> r == Err(Forbidden)
    ensures r.Ok? <==> apptId in store && MayChange(store[apptId], userId, isAdmin)
    ensures r.Ok? ==> r.value == store[apptId]
  {
    if apptId !in store then Err(NotFound)
    else if !MayChange(store[apptId], userId, isAdmin) then Err(Forbidden)
    else Ok(store[apptId])
  }

  /** Completed and canceled appointments are closed to cancel and reschedule. */
  function CheckOpen(a: Appointment): (r: Result<Appointment, Error>)
    ensures r.Ok? <==> a.status != Completed && a.status != Canceled
    ensures a.status == Completed ==> r == Err(BadRequest(AlreadyCompleted))
    ensures a.status == Canceled ==> r == Err(BadRequest(AlreadyCanceled))
    ensures r.Ok? ==> r.value == a
  {
    if a.status == Completed then Err(BadRequest(AlreadyCompleted))
    else if a.status == Canceled then Err(BadRequest(AlreadyCanceled))
    else Ok(a)
  }

  /** A cancel that passes every check; PENDING and FAILED appointments are not excluded. */
  predicate CancelAllowed(store: Store, apptId: ApptId, userId: Option<PatientId>, isAdmin: bool, now: Minute) {
    && apptId in store
    && MayChange(store[apptId], userId, isAdmin)
    && store[apptId].status != Completed
    && store[apptId].status != Canceled
    && store[apptId].when >= now + CancelWindow
  }

  /**
   * `cancelAppointment`: after the checks, save the appointment CANCELED,
   * then try to release its slot; a failed release is only logged.
   */
  function Cancel(store: Store, l: Ledger, apptId: ApptId, userId: Option<PatientId>, isAdmin: bool, now: Minute, net: Transport): (o: Outcome)
    ensures o.reply.Ok? <==> CancelAllowed(store, apptId, userId, isAdmin, now)
    ensures Authorize(store, apptId, userId, isAdmin).Err? ==> o == Rejected(store, l, Authorize(store, apptId, userId, isAdmin).error)
    ensures Authorize(store, apptId, userId, isAdmin).Ok? && CheckOpen(store[apptId]).Err? ==>
              o == Rejected(store, l, CheckOpen(store[apptId]).error)
    ensures Authorize(store, apptId, userId, isAdmin).Ok? && CheckOpen(store[apptId]).Ok? && store[apptId].when < now + CancelWindow ==>
              o == Rejected(store, l, BadRequest(TooLateToCancel))
    ensures o.reply.Ok? ==>
              var a := store[apptId];
              && o.store == store[apptId := a.(status := Canceled)]
              && o.saves == [Stored(apptId, o.store[apptId])]
              && o.reply.value == Stored(apptId, o.store[apptId])
              && o.calls == (if a.slotId.Some? then [Release(a.slotId.value, a.doctorId, apptId)] else [])
              && o.ledger == (if a.slotId.Some? then After(l, Remote(l, net, o.calls[0])) else l)
  {
    var checked := Authorize(store, apptId, userId, isAdmin);
    if checked.Err? then Rejected(store, l, checked.error)
    else
      var a := checked.value;
      if CheckOpen(a).Err? then Rejected(store, l, CheckOpen(a).error)
      else if a.when < now + CancelWindow then Rejected(store, l, BadRequest(TooLateToCancel))
      else
        var canceled := Stored(apptId, a.(status := Canceled));
        var store' := store[apptId := canceled.appointment];
        if a.slotId.Some? then
          var call := Release(a.slotId.value, a.doctorId, apptId);
          Outcome(store', After(l, Remote(l, net, call)), [canceled], [call], Ok(canceled))
        else
          Outcome(store', l, [canceled], [], Ok(canceled))
  }

  // ------------------------------------------------------------- rescheduling

  /** The reschedule request body; an absent doctor means "keep the doctor". */
  datatype RescheduleRequest = RescheduleRequest(doctorId: Option<DoctorId>, when: Minute, slotId: Option<SlotId>)

  /** The checks made before the ledger is called, in the service's order. */
  function CheckReschedule(store: Store, apptId: ApptId, userId: Option<PatientId>, isAdmin: bool, req: RescheduleRequest, now: Minute): (r: Result<Appointment, Error>)
    ensures r.Ok? <==>
              && apptId in store
              && MayChange(store[apptId], userId, isAdmin)
              && store[apptId].status != Completed
              && store[apptId].status != Canceled
              && req.when >= now + RescheduleLead
              && req.slotId.Some?
    ensures r.Ok? ==> r.value == store[apptId]
    ensures Authorize(store, apptId, userId, isAdmin).Err? ==> r == Err(Authorize(store, apptId, userId, isAdmin).error)
    ensures Authorize(store, apptId, userId, isAdmin).Ok? && CheckOpen(store[apptId]).Err? ==> r == Err(CheckOpen(store[apptId]).error)
    ensures Authorize(store, apptId, userId, isAdmin).Ok? && CheckOpen(store[apptId]).Ok? ==>
              && (req.when < now + RescheduleLead ==> r == Err(BadRequest(TooSoon)))
              && (req.when >= now + RescheduleLead && req.slotId.None? ==> r == Err(BadRequest(MissingSlotId)))
  {
    var a :- Authorize(store, apptId, userId, isAdmin);
    var _ :- CheckOpen(a);
    if req.when < now + RescheduleLead then Err(BadRequest(TooSoon))
    else if req.slotId.None? then Err(BadRequest(MissingSlotId))
    else Ok(a)
  }

  /**
   * `rescheduleAppointment`: reserve the new slot first (even when it is the
   * current one); on success release the old slot if it is a different one,
   * ignoring a failed release, and save the appointment RESCHEDULED.
   */
  function Reschedule(store: Store, l: Ledger, apptId: ApptId, userId: Option<PatientId>, isAdmin: bool,
                      req: RescheduleRequest, now: Minute, reserveNet: Transport, releaseNet: Transport): (o: Outcome)
    ensures CheckReschedule(store, apptId, userId, isAdmin, req, now).Err? ==>
              o == Rejected(store, l, CheckReschedule(store, apptId, userId, isAdmin, req, now).error)
    ensures CheckReschedule(store, apptId, userId, isAdmin, req, now).Ok? ==>
              var a := store[apptId];
              var newDoctor := req.doctorId.GetOr(a.doctorId);
              var reserve := Reserve(req.slotId.value, newDoctor, apptId);
              && |o.calls| >= 1 && o.calls[0] == reserve
              && (o.reply.Ok? <==> Remote(l, reserveNet, reserve).Ok?)
              && (o.reply.Err? ==>
                    && o.store == store && o.ledger == l && o.saves == [] && o.calls == [reserve]
                    && o.reply.error == RemoteFailure(Remote(l, reserveNet, reserve).error))
              && (o.reply.Ok? ==>
                    var held := Remote(l, reserveNet, reserve).value;
                    && o.store == store[apptId := Appointment(a.patientId, newDoctor, req.when, Rescheduled, req.slotId)]
                    && o.saves == [Stored(apptId, o.store[apptId])]
                    && o.reply.value == Stored(apptId, o.store[apptId])
                    && HeldBy(o.ledger, req.slotId.value, apptId)
                    && (a.slotId.Some? && a.slotId != req.slotId <==> |o.calls| == 2)
                    && (|o.calls| == 2 ==> o.calls[1] == Release(a.slotId.value, a.doctorId, apptId))
                    && o.ledger == (if |o.calls| == 2 then After(held, Remote(held, releaseNet, o.calls[1])) else held))
  {
    match CheckReschedule(store, apptId, userId, isAdmin, req, now)
    case Err(e) => Rejected(store, l, e)
    case Ok(a) =>
      var newSlot := req.slotId.value;
      var newDoctor := req.doctorId.GetOr(a.doctorId);
      var reserve := Reserve(newSlot, newDoctor, apptId);
      match Remote(l, reserveNet, reserve)
      case Err(e) => Outcome(store, l, [], [reserve], Err(RemoteFailure(e)))
      case Ok(l1) =>
        var moved := Stored(apptId, Appointment(a.patientId, newDoctor, req.when, Rescheduled, Some(newSlot)));
        var store' := store[apptId := moved.appointment];
        if a.slotId.Some? && a.slotId.value != newSlot then
          var release := Release(a.slotId.value, a.doctorId, apptId);
          Outcome(store', After(l1, Remote(l1, releaseNet, release)), [moved], [reserve, release], Ok(moved))
        else
          Outcome(store', l1, [moved], [reserve], Ok(moved))
  }

  // ----------------------------------------------------------------- listing

  /** What the doctor-status check of the listing learns from the doctor service. */
  datatype DoctorProbe = DoctorFound | DoctorMissing | ProbeDown

  /** The general listing hides canceled and failed appointments. */
  predicate Listed(a: Appointment) {
    a.status != Canceled && a.status != Failed
  }

  /** The appointments of the store that `pick` selects and the listing shows. */
  function VisibleWhere(store: Store, pick: Appointment -> bool): (m: Store)
    ensures forall id :: id in m <==> id in store && pick(store[id]) && Listed(store[id])
    ensures forall id :: id in m ==> m[id] == store[id]
  {
    map id | id in store && pick(store[id]) && Listed(store[id]) :: store[id]
  }

  /**
   * `getAllAppointments`: an admin sees every appointment, a patient their
   * own, a doctor theirs once the doctor service confirms the doctor; the
   * listing never contains a canceled or failed appointment.
   */
  function GetAllAppointments(store: Store, patientTok: Option<PatientId>, doctorTok: Option<DoctorId>,
                              isAdmin: bool, probe: DoctorProbe): (r: Result<Store, Error>)
    ensures r.Ok? ==> forall id :: id in r.value ==> id in store && r.value[id] == store[id] && Listed(store[id])
    ensures isAdmin ==> r.Ok? && forall id :: id in store && Listed(store[id]) ==> id in r.value
    ensures !isAdmin && patientTok.Some? ==>
              r.Ok? && forall id :: id in r.value <==> id in store && Listed(store[id]) && store[id].patientId == patientTok.value
    ensures !isAdmin && patientTok.None? && doctorTok.Some? ==>
              && (probe == DoctorMissing ==> r == Err(RemoteFailure(NotFound)))
              && (probe == ProbeDown ==> r == Err(RemoteFailure(Unreachable)))
              && (probe == DoctorFound ==>
                    r.Ok? && forall id :: id in r.value <==> id in store && Listed(store[id]) && store[id].doctorId == doctorTok.value)
    ensures !isAdmin && patientTok.None? && doctorTok.None? ==> r == Err(Forbidden)
  {
    if isAdmin then Ok(VisibleWhere(store, (a: Appointment) => true))
    else if patientTok.Some? then Ok(VisibleWhere(store, (a: Appointment) => a.patientId == patientTok.value))
    else if doctorTok.Some? then
      match probe
      case DoctorMissing => Err(RemoteFailure(NotFound))
      case ProbeDown => Err(RemoteFailure(Unreachable))
      case DoctorFound => Ok(VisibleWhere(store, (a: Appointment) => a.doctorId == doctorTok.value))
    else Err(Forbidden)
  }
}
