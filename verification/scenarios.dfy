/**
 * Properties that span more than one operation or more than one service:
 * booking against the local patient replica, the slot ledger seen through a
 * sequence of appointment operations, and the patient-created event as the
 * appointment service receives it.
 */
module Scenarios {
  import opened Wrappers
  import opened Common
  import opened SlotLedger
  import opened PatientReplica
  import opened Appointments
  import opened BookingProtocol
  import PatientRegistry

  // ------------------------------------------- patient events reaching booking

  /**
   * The patient-created event as the appointment service reads it. The
   * patient service sets id, name, e-mail and type but no status, and an
   * unset protobuf string field reads as the empty string.
   */
  function ReceivedCreatedEvent(o: PatientRegistry.Outbound): (e: PatientEvent)
    requires o.PatientCreatedEvent?
    ensures e.eventType == PatientCreated && e.patientId == Some(o.patientId)
    ensures e.name == o.name && e.email == o.email
  {
    PatientEvent(PatientCreated, Some(o.patientId), o.name, o.email, "")
  }

  /** The event as evidently intended: a new patient is announced ACTIVE. */
  function ReceivedCreatedEventWithStatus(o: PatientRegistry.Outbound): (e: PatientEvent)
    requires o.PatientCreatedEvent?
    ensures e.eventType == PatientCreated && e.patientId == Some(o.patientId)
    ensures e.name == o.name && e.email == o.email
    ensures EqualsIgnoreCase(e.status, "ACTIVE")
  {
    PatientEvent(PatientCreated, Some(o.patientId), o.name, o.email, "ACTIVE")
  }

  /**
   * As written, a patient registered through the patient service can never
   * book: once its created event reaches the replica, every booking for it
   * is refused as not active, and nothing is written or reserved.
   */
  lemma {:induction false} RegisteredPatientCannotBook(reg: PatientRegistry.Registry, preq: PatientRegistry.PatientRequest, today: int,
                                                       pid: PatientId, replica: Replica, t: Minute,
                                                       store: Store, l: Ledger, req: BookRequest, now: Minute, newId: ApptId, net: Transport)
    requires pid !in reg.patients
    requires PatientRegistry.CreatePatient(reg, preq, today, pid, Up).reply.Ok?
    requires newId !in store
    ensures var created := PatientRegistry.CreatePatient(reg, preq, today, pid, Up).registry;
            var event := ReceivedCreatedEvent(created.outbox[|created.outbox| - 1]);
            var replica' := HandlePatientEvent(replica, event, t);
            && !IsActive(replica', pid)
            && Book(store, replica', l, Some(pid), false, req.(patientId := None), now, newId, net)
               == Rejected(store, l, BadRequest(PatientNotActive))
  {
    var created := PatientRegistry.CreatePatient(reg, preq, today, pid, Up).registry;
    var out := created.outbox[|created.outbox| - 1];
    assert out == PatientRegistry.PatientCreatedEvent(pid, preq.name, preq.email);
    var replica' := HandlePatientEvent(replica, ReceivedCreatedEvent(out), t);
    assert replica'[pid].status == "";
    assert ResolvePatient(Some(pid), false, None) == Ok(pid);
  }

  /** With the status carried, the registered patient passes the replica check. */
  lemma {:induction false} RegisteredPatientCanBook(reg: PatientRegistry.Registry, preq: PatientRegistry.PatientRequest, today: int,
                                                    pid: PatientId, replica: Replica, t: Minute,
                                                    slotId: SlotId, doctorId: DoctorId, when: Minute, now: Minute)
    requires pid !in reg.patients
    requires PatientRegistry.CreatePatient(reg, preq, today, pid, Up).reply.Ok?
    requires when >= now + BookLead
    ensures var created := PatientRegistry.CreatePatient(reg, preq, today, pid, Up).registry;
            var event := ReceivedCreatedEventWithStatus(created.outbox[|created.outbox| - 1]);
            var replica' := HandlePatientEvent(replica, event, t);
            && IsActive(replica', pid)
            && CheckBooking(replica', Some(pid), false, BookRequest(None, doctorId, when, Some(slotId)), now)
               == Ok(BookingPlan(pid, slotId))
  {
    var created := PatientRegistry.CreatePatient(reg, preq, today, pid, Up).registry;
    var out := created.outbox[|created.outbox| - 1];
    assert out == PatientRegistry.PatientCreatedEvent(pid, preq.name, preq.email);
    var replica' := HandlePatientEvent(replica, ReceivedCreatedEventWithStatus(out), t);
    assert replica'[pid].status == "ACTIVE";
    assert ResolvePatient(Some(pid), false, None) == Ok(pid);
  }

  /** After a deleted event, booking for that patient writes nothing and reserves nothing. */
  lemma {:induction false} DeletedPatientCannotBook(replica: Replica, e: PatientEvent, t: Minute, store: Store, l: Ledger,
                                                    req: BookRequest, now: Minute, newId: ApptId, net: Transport)
    requires e.eventType == PatientDeleted && e.patientId.Some? && newId !in store
    ensures var o := Book(store, HandlePatientEvent(replica, e, t), l, e.patientId, false, req.(patientId := None), now, newId, net);
            o.reply.Err? && o.store == store && o.ledger == l && o.saves == [] && o.calls == []
  {
    var replica' := HandlePatientEvent(replica, e, t);
    DeletedPatientIsNotActive(replica, e, t);
    assert ResolvePatient(e.patientId, false, None) == Ok(e.patientId.value);
    assert CheckBooking(replica', e.patientId, false, req.(patientId := None), now).Err?;
  }

  // ------------------------------------------------- ledger through a sequence

  /** Booking a free slot and then cancelling in time gives the ledger back exactly as it was. */
  lemma {:induction false} BookThenCancelRestoresLedger(store: Store, patients: Replica, l: Ledger, pid: PatientId, doctorId: DoctorId,
                                                        slotId: SlotId, when: Minute, now: Minute, later: Minute, newId: ApptId)
    requires newId !in store && Consistent(l)
    requires IsActive(patients, pid) && when >= now + BookLead && when >= later + CancelWindow
    requires OwnedBy(l, slotId, doctorId) && !l[slotId].isBooked
    ensures var booked := Book(store, patients, l, Some(pid), false, BookRequest(None, doctorId, when, Some(slotId)), now, newId, Up);
            var canceled := Cancel(booked.store, booked.ledger, newId, Some(pid), false, later, Up);
            && booked.reply.Ok?
            && canceled.reply.Ok?
            && canceled.ledger == l
            && canceled.store[newId].status == Canceled
  {
    var req := BookRequest(None, doctorId, when, Some(slotId));
    assert ResolvePatient(Some(pid), false, None) == Ok(pid);
    assert CheckBooking(patients, Some(pid), false, req, now) == Ok(BookingPlan(pid, slotId));
    ReserveThenReleaseRestores(l, slotId, doctorId, newId);
    var booked := Book(store, patients, l, Some(pid), false, req, now, newId, Up);
    assert booked.ledger == MarkSlotBooked(l, slotId, doctorId, newId).value;
    assert booked.store[newId] == Appointment(pid, doctorId, when, Scheduled, Some(slotId));
    assert CancelAllowed(booked.store, newId, Some(pid), false, later);
  }

  /**
   * A second booking of a slot already held by another appointment is
   * saved FAILED, reports the ledger's refusal, and leaves the ledger alone.
   */
  lemma {:induction false} SecondBookingOfSlotFails(store: Store, patients: Replica, l: Ledger, userId: Option<PatientId>, isAdmin: bool,
                                                    req: BookRequest, now: Minute, newId: ApptId, net: Transport, holder: ApptId)
    requires newId !in store && holder != newId
    requires CheckBooking(patients, userId, isAdmin, req, now).Ok?
    requires OwnedBy(l, req.slotId.value, req.doctorId) && HeldBy(l, req.slotId.value, holder)
    ensures var o := Book(store, patients, l, userId, isAdmin, req, now, newId, net);
            && o.ledger == l
            && o.store[newId].status == Failed
            && o.reply.Err? && o.reply.error.RemoteFailure?
  {
    ForeignHoldIsStable(l, req.slotId.value, req.doctorId, newId, holder);
  }

  /** A canceled appointment cannot be canceled again, and the second attempt changes nothing. */
  lemma {:induction false} CancelTwiceFails(store: Store, l: Ledger, apptId: ApptId, userId: Option<PatientId>, isAdmin: bool,
                                            t1: Minute, n1: Transport, t2: Minute, n2: Transport)
    requires Cancel(store, l, apptId, userId, isAdmin, t1, n1).reply.Ok?
    ensures var once := Cancel(store, l, apptId, userId, isAdmin, t1, n1);
            Cancel(once.store, once.ledger, apptId, userId, isAdmin, t2, n2)
            == Rejected(once.store, once.ledger, BadRequest(AlreadyCanceled))
  {
    var once := Cancel(store, l, apptId, userId, isAdmin, t1, n1);
    assert once.store[apptId] == store[apptId].(status := Canceled);
    assert MayChange(once.store[apptId], userId, isAdmin);
  }

  /**
   * When the old slot cannot be released, the reschedule still succeeds:
   * the appointment holds the new slot, the old slot stays held by it, and
   * the store and the ledger are still coherent.
   */
  lemma {:induction false} FailedReleaseLeavesStaleHold(store: Store, l: Ledger, apptId: ApptId, userId: Option<PatientId>, isAdmin: bool,
                                                        req: RescheduleRequest, now: Minute)
    requires Coherent(store, l)
    requires CheckReschedule(store, apptId, userId, isAdmin, req, now).Ok?
    requires store[apptId].slotId.Some? && store[apptId].slotId != req.slotId
    requires HeldBy(l, store[apptId].slotId.value, apptId)
    requires OwnedBy(l, req.slotId.value, req.doctorId.GetOr(store[apptId].doctorId)) && !l[req.slotId.value].isBooked
    ensures var o := Reschedule(store, l, apptId, userId, isAdmin, req, now, Up, Down);
            && o.reply.Ok?
            && o.store[apptId].status == Rescheduled
            && HeldBy(o.ledger, req.slotId.value, apptId)
            && HeldBy(o.ledger, store[apptId].slotId.value, apptId)
            && Coherent(o.store, o.ledger)
  {
    var a := store[apptId];
    var d2 := req.doctorId.GetOr(a.doctorId);
    var l1 := MarkSlotBooked(l, req.slotId.value, d2, apptId).value;
    assert l1[a.slotId.value] == l[a.slotId.value];
    RescheduleKeepsCoherent(store, l, apptId, userId, isAdmin, req, now, Up, Down);
  }
}
