/**
 * The patient service's registry: creating, updating and deleting patient
 * records, with e-mail addresses kept unique and updates restricted to the
 * patient themself or an admin.
 */
module PatientRegistry {
  import opened Wrappers
  import opened Common

  /** A patient record; dates are day numbers. */
  datatype Patient = Patient(
    name: string,
    email: string,
    address: string,
    dateOfBirth: int,
    registeredDate: int,
    contact: string,
    gender: string,
    emergencyContact: string)

  type Patients = map<PatientId, Patient>

  /** The create/update request body, with the date of birth already parsed. */
  datatype PatientRequest = PatientRequest(
    name: string,
    email: string,
    address: string,
    dateOfBirth: int,
    contact: string,
    gender: string,
    emergencyContact: string)

  /**
   * What a successful create sends out, in order: the billing-account
   * request to the billing service, then the patient-created event.
   */
  datatype Outbound =
    | BillingAccountRequest(patientId: PatientId, name: string, email: string)
    | PatientCreatedEvent(patientId: PatientId, name: string, email: string)

  datatype Registry = Registry(patients: Patients, outbox: seq<Outbound>)

  datatype Saved = Saved(registry: Registry, id: PatientId)

  /**
   * The outcome of a create: the registry afterwards, which can hold the new
   * patient even when the reply is an error, and the reply.
   */
  datatype Created = Created(registry: Registry, reply: Result<PatientId, Error>)

  /** No two patients share an e-mail address. */
  predicate EmailsDistinct(ps: Patients) {
    forall a, b :: a in ps && b in ps && ps[a].email == ps[b].email ==> a == b
  }

  predicate EmailInUse(ps: Patients, email: string) {
    exists id :: id in ps && ps[id].email == email
  }

  /** The contact column is unique (and required), so a stored contact clashes. */
  predicate ContactInUse(ps: Patients, contact: string) {
    exists id :: id in ps && ps[id].contact == contact
  }

  /** `PatientMapper.toModel`: the request's fields, registered today. */
  function ToModel(req: PatientRequest, today: int): (p: Patient)
    ensures p.email == req.email && p.contact == req.contact && p.registeredDate == today
  {
    Patient(req.name, req.email, req.address, req.dateOfBirth, today, req.contact, req.gender, req.emergencyContact)
  }

  /**
   * `createPatient`: refuse an e-mail already registered; the database
   * refuses a contact already registered; otherwise save the patient, then
   * ask the billing service for an account and publish the created event.
   * Nothing is transactional: when the billing service cannot be reached
   * the error reaches the caller after the save, so the patient stays
   * stored and no created event is published.
   */
  function CreatePatient(reg: Registry, req: PatientRequest, today: int, newId: PatientId, billing: Transport): (c: Created)
    requires newId !in reg.patients
    ensures EmailInUse(reg.patients, req.email) ==> c == Created(reg, Err(EmailTaken))
    ensures !EmailInUse(reg.patients, req.email) && ContactInUse(reg.patients, req.contact) ==> c == Created(reg, Err(Duplicate))
    ensures c.reply.Ok? <==> !EmailInUse(reg.patients, req.email) && !ContactInUse(reg.patients, req.contact) && billing == Up
    ensures !EmailInUse(reg.patients, req.email) && !ContactInUse(reg.patients, req.contact) ==>
              && c.registry.patients == reg.patients[newId := ToModel(req, today)]
              && (billing == Up ==>
                    && c.reply == Ok(newId)
                    && c.registry.outbox == reg.outbox + [BillingAccountRequest(newId, req.name, req.email),
                                                          PatientCreatedEvent(newId, req.name, req.email)])
              && (billing == Down ==> c.reply == Err(Unreachable) && c.registry.outbox == reg.outbox)
    ensures EmailsDistinct(reg.patients) ==> EmailsDistinct(c.registry.patients)
  {
    if EmailInUse(reg.patients, req.email) then Created(reg, Err(EmailTaken))
    else if ContactInUse(reg.patients, req.contact) then Created(reg, Err(Duplicate))
    else
      var p := ToModel(req, today);
      var patients := reg.patients[newId := p];
      if billing == Up then
        var out := [BillingAccountRequest(newId, p.name, p.email), PatientCreatedEvent(newId, p.name, p.email)];
        Created(Registry(patients, reg.outbox + out), Ok(newId))
      else Created(reg.(patients := patients), Err(Unreachable))
  }

  /**
   * A create that loses the billing call leaves a patient no retry can
   * complete: the same request is then refused as a taken e-mail, so the
   * patient never gets its billing request or its created event.
   */
  lemma {:induction false} RetryAfterBillingOutageIsRefused(reg: Registry, req: PatientRequest, today: int,
                                                            newId: PatientId, retryId: PatientId, billing: Transport)
    requires newId !in reg.patients && !EmailInUse(reg.patients, req.email) && !ContactInUse(reg.patients, req.contact)
    requires retryId !in reg.patients && retryId != newId
    ensures var lost := CreatePatient(reg, req, today, newId, Down);
            && newId in lost.registry.patients
            && lost.reply == Err(Unreachable)
            && CreatePatient(lost.registry, req, today, retryId, billing) == Created(lost.registry, Err(EmailTaken))
            && forall o :: o in lost.registry.outbox ==> o in reg.outbox
  {
    var lost := CreatePatient(reg, req, today, newId, Down);
    assert lost.registry.patients[newId].email == req.email;
  }

  /** Another patient than `id` already has `email`. */
  predicate EmailHeldByAnother(ps: Patients, email: string, id: PatientId) {
    exists other :: other in ps && other != id && ps[other].email == email
  }

  /**
   * `updatePatient`: only an admin or the patient whose stored e-mail is the
   * caller's login name may update; the new e-mail must not belong to
   * another patient; name, address, e-mail and date of birth change.
   */
  function UpdatePatient(reg: Registry, id: PatientId, req: PatientRequest, authName: string, isAdmin: bool): (r: Result<Saved, Error>)
    ensures id !in reg.patients ==> r == Err(NotFound)
    ensures id in reg.patients && !isAdmin && reg.patients[id].email != authName ==> r == Err(Forbidden)
    ensures id in reg.patients && (isAdmin || reg.patients[id].email == authName) && EmailHeldByAnother(reg.patients, req.email, id) ==>
              r == Err(EmailTaken)
    ensures r.Ok? <==>
              && id in reg.patients
              && (isAdmin || reg.patients[id].email == authName)
              && !EmailHeldByAnother(reg.patients, req.email, id)
    ensures r.Ok? ==>
              var before := reg.patients[id];
              && r.value.id == id
              && r.value.registry.outbox == reg.outbox
              && r.value.registry.patients.Keys == reg.patients.Keys
              && (forall other :: other in reg.patients && other != id ==> r.value.registry.patients[other] == reg.patients[other])
              && var p := r.value.registry.patients[id];
              && p.name == req.name && p.address == req.address && p.email == req.email && p.dateOfBirth == req.dateOfBirth
              && p.contact == before.contact && p.gender == before.gender && p.emergencyContact == before.emergencyContact
              && p.registeredDate == before.registeredDate
    ensures r.Ok? && EmailsDistinct(reg.patients) ==> EmailsDistinct(r.value.registry.patients)
  {
    if id !in reg.patients then Err(NotFound)
    else
      var p := reg.patients[id];
      if !isAdmin && p.email != authName then Err(Forbidden)
      else if EmailHeldByAnother(reg.patients, req.email, id) then Err(EmailTaken)
      else
        var p' := p.(name := req.name, address := req.address, email := req.email, dateOfBirth := req.dateOfBirth);
        Ok(Saved(reg.(patients := reg.patients[id := p']), id))
  }

  /** `deletePatient`: remove exactly that patient; an unknown id is an error. */
  function DeletePatient(reg: Registry, id: PatientId): (r: Result<Registry, Error>)
    ensures r.Err? <==> id !in reg.patients
    ensures r.Err? ==> r.error == NotFound
    ensures r.Ok? ==>
              && r.value.patients.Keys == reg.patients.Keys - {id}
              && (forall other :: other in r.value.patients ==> r.value.patients[other] == reg.patients[other])
              && r.value.outbox == reg.outbox
    ensures r.Ok? && EmailsDistinct(reg.patients) ==> EmailsDistinct(r.value.patients)
  {
    if id !in reg.patients then Err(NotFound)
    else Ok(reg.(patients := reg.patients - {id}))
  }

  /** `isOwner`: the stored e-mail of the patient is the caller's login name. */
  function IsOwner(ps: Patients, id: PatientId, email: string): (b: bool)
    ensures id !in ps ==> !b
  {
    id in ps && ps[id].email == email
  }

  /**
   * Ownership follows the e-mail: after a successful update the patient is
   * owned by the new address, and by no other.
   */
  lemma {:induction false} UpdateMovesOwnership(reg: Registry, id: PatientId, req: PatientRequest, authName: string, isAdmin: bool, who: string)
    requires UpdatePatient(reg, id, req, authName, isAdmin).Ok?
    ensures IsOwner(UpdatePatient(reg, id, req, authName, isAdmin).value.registry.patients, id, who) <==> who == req.email
  {
    var ps := UpdatePatient(reg, id, req, authName, isAdmin).value.registry.patients;
    assert ps[id].email == req.email;
  }

  /**
   * With distinct e-mails, a login name owns at most one patient record, so
   * the owner check identifies a single patient.
   */
  lemma {:induction false} OwnerIsUnique(ps: Patients, a: PatientId, b: PatientId, email: string)
    requires EmailsDistinct(ps) && IsOwner(ps, a, email) && IsOwner(ps, b, email)
    ensures a == b
  {
    assert ps[a].email == ps[b].email;
  }

  /** A deleted patient owns nothing and can be neither updated nor deleted again. */
  lemma {:induction false} DeleteIsFinal(reg: Registry, id: PatientId, req: PatientRequest, authName: string, isAdmin: bool, who: string)
    requires DeletePatient(reg, id).Ok?
    ensures !IsOwner(DeletePatient(reg, id).value.patients, id, who)
    ensures UpdatePatient(DeletePatient(reg, id).value, id, req, authName, isAdmin) == Err(NotFound)
    ensures DeletePatient(DeletePatient(reg, id).value, id) == Err(NotFound)
  {
    assert id !in DeletePatient(reg, id).value.patients;
  }
}
