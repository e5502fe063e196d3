/**
 * The appointment service's local copy of patient status, kept up to date
 * from patient events: created and updated events upsert, a deleted event
 * marks the record DELETED, anything else is ignored.
 */
module PatientReplica {
  import opened Wrappers
  import opened Common

  datatype PatientDetails = PatientDetails(name: string, email: string, status: string, lastUpdated: Minute)

  type Replica = map<PatientId, PatientDetails>

  /**
   * A parsed patient event. `patientId` is None when the id text is not a
   * UUID; the listener logs that and stores nothing.
   */
  datatype PatientEvent = PatientEvent(eventType: string, patientId: Option<PatientId>, name: string, email: string, status: string)

  const PatientCreated: string := "PATIENT_CREATED"
  const PatientUpdated: string := "PATIENT_UPDATED"
  const PatientDeleted: string := "PATIENT_DELETED"
  const DeletedStatus: string := "DELETED"

  predicate IsUpsert(e: PatientEvent) {
    e.eventType == PatientCreated || e.eventType == PatientUpdated
  }

  /** `handlePatientEvent`, applied at time `now`. */
  function HandlePatientEvent(r: Replica, e: PatientEvent, now: Minute): (r': Replica)
    ensures e.patientId.None? ==> r' == r
    ensures e.patientId.Some? && IsUpsert(e) ==>
              && r'.Keys == r.Keys + {e.patientId.value}
              && r'[e.patientId.value] == PatientDetails(e.name, e.email, e.status, now)
    ensures e.patientId.Some? && e.eventType == PatientDeleted && e.patientId.value in r ==>
              && r'.Keys == r.Keys
              && r'[e.patientId.value].status == DeletedStatus
              && r'[e.patientId.value].name == r[e.patientId.value].name
              && r'[e.patientId.value].email == r[e.patientId.value].email
    ensures e.patientId.Some? && e.eventType == PatientDeleted && e.patientId.value !in r ==> r' == r
    ensures !IsUpsert(e) && e.eventType != PatientDeleted ==> r' == r
    ensures forall p :: p in r && Some(p) != e.patientId ==> p in r' && r'[p] == r[p]
    ensures forall p :: p in r' && Some(p) != e.patientId ==> p in r
  {
    match e.patientId
    case None => r
    case Some(id) =>
      if IsUpsert(e) then
        r[id := PatientDetails(e.name, e.email, e.status, now)]
      else if e.eventType == PatientDeleted then
        if id in r then r[id := r[id].(status := DeletedStatus, lastUpdated := now)] else r
      else
        r
  }

  /**
   * Redelivery is harmless: handling the same event a second time, later,
   * gives the store a single handling at that later time would give.
   */
  lemma RedeliveryIsIdempotent(r: Replica, e: PatientEvent, t1: Minute, t2: Minute)
    ensures HandlePatientEvent(HandlePatientEvent(r, e, t1), e, t2) == HandlePatientEvent(r, e, t2)
  {
    if e.patientId.Some? && !IsUpsert(e) && e.eventType == PatientDeleted && e.patientId.value in r {
      var id := e.patientId.value;
      var once := HandlePatientEvent(r, e, t1);
      assert HandlePatientEvent(once, e, t2) == once[id := once[id].(status := DeletedStatus, lastUpdated := t2)];
    }
  }

  /** The status word booking accepts, compared ignoring case. */
  predicate IsActive(r: Replica, p: PatientId) {
    p in r && EqualsIgnoreCase(r[p].status, "ACTIVE")
  }

  /** After a deleted event the patient is no longer active. */
  lemma DeletedPatientIsNotActive(r: Replica, e: PatientEvent, now: Minute)
    requires e.eventType == PatientDeleted && e.patientId.Some?
    ensures !IsActive(HandlePatientEvent(r, e, now), e.patientId.value)
  {
    var r' := HandlePatientEvent(r, e, now);
    var id := e.patientId.value;
    if id in r' {
      assert |r'[id].status| == 7;
    }
  }
}
