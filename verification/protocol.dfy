/**
 * The system-wide agreement between the appointment store and the doctor
 * service's slot ledger, and its preservation by booking, cancelling and
 * rescheduling under every combination of network outcomes.
 */
module BookingProtocol {
  import opened Wrappers
  import opened Common
  import opened SlotLedger
  import opened PatientReplica
  import opened Appointments

  /** Scheduled and rescheduled appointments are the ones that must own a slot. */
  predicate Live(a: Appointment) {
    a.status == Scheduled || a.status == Rescheduled
  }

  /** Every live appointment holds the slot it names, and that slot belongs to its doctor. */
  predicate LiveHoldSlots(store: Store, l: Ledger) {
    forall id :: id in store && Live(store[id]) ==>
      && store[id].slotId.Some?
      && HeldBy(l, store[id].slotId.value, id)
      && l[store[id].slotId.value].doctorId == store[id].doctorId
  }

  /** Every reservation names a stored appointment, and never a FAILED one. */
  predicate HoldersKnown(store: Store, l: Ledger) {
    forall s :: s in l && l[s].appointmentId.Some? ==>
      && l[s].appointmentId.value in store
      && store[l[s].appointmentId.value].status != Failed
  }

  predicate Coherent(store: Store, l: Ledger) {
    Consistent(l) && LiveHoldSlots(store, l) && HoldersKnown(store, l)
  }

  /** Two distinct live appointments never share a slot. */
  lemma {:induction false} CoherentMeansNoSharedSlot(store: Store, l: Ledger, a: ApptId, b: ApptId)
    requires Coherent(store, l)
    requires a in store && b in store && a != b && Live(store[a]) && Live(store[b])
    ensures store[a].slotId != store[b].slotId
  {
    assert HeldBy(l, store[a].slotId.value, a);
    assert HeldBy(l, store[b].slotId.value, b);
  }

  /** A successful reserve for `apptId` leaves every slot held by someone else alone. */
  lemma {:induction false} ReserveSparesOthers(l: Ledger, slotId: SlotId, doctorId: DoctorId, apptId: ApptId, s: SlotId, other: ApptId)
    requires MarkSlotBooked(l, slotId, doctorId, apptId).Ok?
    requires other != apptId && HeldBy(l, s, other)
    ensures s != slotId
    ensures s in MarkSlotBooked(l, slotId, doctorId, apptId).value
    ensures MarkSlotBooked(l, slotId, doctorId, apptId).value[s] == l[s]
  {
    if s == slotId {
      ForeignHoldIsStable(l, slotId, doctorId, apptId, other);
      assert false;
    }
  }

  /** Booking keeps the store and the ledger coherent, whatever the network does. */
  lemma {:induction false} BookKeepsCoherent(store: Store, patients: Replica, l: Ledger, userId: Option<PatientId>, isAdmin: bool,
                                             req: BookRequest, now: Minute, newId: ApptId, net: Transport)
    requires newId !in store && Coherent(store, l)
    ensures Coherent(Book(store, patients, l, userId, isAdmin, req, now, newId, net).store,
                     Book(store, patients, l, userId, isAdmin, req, now, newId, net).ledger)
  {
    var o := Book(store, patients, l, userId, isAdmin, req, now, newId, net);
    var check := CheckBooking(patients, userId, isAdmin, req, now);
    if check.Ok? {
      var slot := check.value.slotId;
      var call := Reserve(slot, req.doctorId, newId);
      if o.reply.Ok? {
        var l' := MarkSlotBooked(l, slot, req.doctorId, newId).value;
        assert o.ledger == l';
        forall id | id in o.store && Live(o.store[id])
          ensures o.store[id].slotId.Some? && HeldBy(l', o.store[id].slotId.value, id)
          ensures l'[o.store[id].slotId.value].doctorId == o.store[id].doctorId
        {
          if id != newId {
            ReserveSparesOthers(l, slot, req.doctorId, newId, store[id].slotId.value, id);
          }
        }
        forall s | s in l' && l'[s].appointmentId.Some?
          ensures l'[s].appointmentId.value in o.store && o.store[l'[s].appointmentId.value].status != Failed
        {
          if s != slot {
            assert l'[s] == l[s];
          }
        }
      } else {
        assert o.ledger == l && o.store == store[newId := o.store[newId]];
        assert o.store[newId].status == Failed;
      }
    }
  }

  /** Cancelling keeps the store and the ledger coherent, whether or not the release goes through. */
  lemma {:induction false} CancelKeepsCoherent(store: Store, l: Ledger, apptId: ApptId, userId: Option<PatientId>, isAdmin: bool,
                                               now: Minute, net: Transport)
    requires Coherent(store, l)
    ensures Coherent(Cancel(store, l, apptId, userId, isAdmin, now, net).store,
                     Cancel(store, l, apptId, userId, isAdmin, now, net).ledger)
  {
    var o := Cancel(store, l, apptId, userId, isAdmin, now, net);
    if o.reply.Ok? {
      var a := store[apptId];
      var released := a.slotId.Some? && o.ledger != l;
      if released {
        var s0 := a.slotId.value;
        var r := MarkSlotUnbooked(l, s0, a.doctorId, apptId);
        assert r.Ok? && o.ledger == r.value;
        forall id | id in o.store && Live(o.store[id])
          ensures o.store[id].slotId.Some? && HeldBy(o.ledger, o.store[id].slotId.value, id)
          ensures o.ledger[o.store[id].slotId.value].doctorId == o.store[id].doctorId
        {
          assert id != apptId;
          assert store[id].slotId.value != s0;
        }
        forall s | s in o.ledger && o.ledger[s].appointmentId.Some?
          ensures o.ledger[s].appointmentId.value in o.store && o.store[o.ledger[s].appointmentId.value].status != Failed
        {
          assert s != s0;
          assert o.ledger[s] == l[s];
        }
      } else {
        assert o.ledger == l;
      }
    }
  }

  /** Rescheduling keeps the store and the ledger coherent, whatever happens to either ledger call. */
  lemma {:induction false} RescheduleKeepsCoherent(store: Store, l: Ledger, apptId: ApptId, userId: Option<PatientId>, isAdmin: bool,
                                                   req: RescheduleRequest, now: Minute, reserveNet: Transport, releaseNet: Transport)
    requires Coherent(store, l)
    ensures Coherent(Reschedule(store, l, apptId, userId, isAdmin, req, now, reserveNet, releaseNet).store,
                     Reschedule(store, l, apptId, userId, isAdmin, req, now, reserveNet, releaseNet).ledger)
  {
    var o := Reschedule(store, l, apptId, userId, isAdmin, req, now, reserveNet, releaseNet);
    if o.reply.Ok? {
      var a := store[apptId];
      var s2 := req.slotId.value;
      var d2 := req.doctorId.GetOr(a.doctorId);
      var l1 := MarkSlotBooked(l, s2, d2, apptId).value;
      var releasing := a.slotId.Some? && a.slotId.value != s2 && o.ledger != l1;
      if releasing {
        var s1 := a.slotId.value;
        assert o.ledger == MarkSlotUnbooked(l1, s1, a.doctorId, apptId).value;
        assert OnlyBookingOf(l1, o.ledger, s1);
      } else {
        assert o.ledger == l1;
      }
      assert Consistent(o.ledger);
      forall id | id in o.store && Live(o.store[id])
        ensures o.store[id].slotId.Some? && HeldBy(o.ledger, o.store[id].slotId.value, id)
        ensures o.ledger[o.store[id].slotId.value].doctorId == o.store[id].doctorId
      {
        if id != apptId {
          var s := store[id].slotId.value;
          ReserveSparesOthers(l, s2, d2, apptId, s, id);
          if releasing {
            assert s != a.slotId.value;
          }
        } else if releasing {
          assert o.ledger[s2] == l1[s2];
        }
      }
      forall s | s in o.ledger && o.ledger[s].appointmentId.Some?
        ensures o.ledger[s].appointmentId.value in o.store && o.store[o.ledger[s].appointmentId.value].status != Failed
      {
        // the released slot is free again, so `s` is not it
        if !(releasing && s == a.slotId.value) {
          assert o.ledger[s] == l1[s];
          if s != s2 {
            assert l1[s] == l[s];
          }
        }
      }
    }
  }

  /**
   * Moving an appointment from the slot it holds to a free slot, with both
   * calls getting through, frees the old slot, holds the new one and leaves
   * every other slot as it was.
   */
  lemma {:induction false} RescheduleMovesHold(store: Store, l: Ledger, apptId: ApptId, userId: Option<PatientId>, isAdmin: bool,
                                               req: RescheduleRequest, now: Minute)
    requires CheckReschedule(store, apptId, userId, isAdmin, req, now).Ok?
    requires store[apptId].slotId.Some? && store[apptId].slotId != req.slotId
    requires HeldBy(l, store[apptId].slotId.value, apptId) && l[store[apptId].slotId.value].doctorId == store[apptId].doctorId
    requires OwnedBy(l, req.slotId.value, req.doctorId.GetOr(store[apptId].doctorId)) && !l[req.slotId.value].isBooked
    ensures var o := Reschedule(store, l, apptId, userId, isAdmin, req, now, Up, Up);
            var was := store[apptId].slotId.value;
            && o.reply.Ok?
            && HeldBy(o.ledger, req.slotId.value, apptId)
            && was in o.ledger && !o.ledger[was].isBooked && o.ledger[was].appointmentId.None?
            && SameWindow(o.ledger[was], l[was])
            && o.ledger.Keys == l.Keys
            && forall s :: s in l && s != was && s != req.slotId.value ==> o.ledger[s] == l[s]
  {
    var a := store[apptId];
    var s1 := a.slotId.value;
    var s2 := req.slotId.value;
    var l1 := MarkSlotBooked(l, s2, req.doctorId.GetOr(a.doctorId), apptId).value;
    assert l1[s1] == l[s1];
    var o := Reschedule(store, l, apptId, userId, isAdmin, req, now, Up, Up);
    assert o.ledger == MarkSlotUnbooked(l1, s1, a.doctorId, apptId).value;
  }
}
