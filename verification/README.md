# Appointment booking and billing core, in Dafny

This project models the core of a healthcare microservice platform:

- **Slot ledger.** The doctor service reserves and releases doctor slots for appointments, creates single slots with an overlap check, and generates a day-by-day grid of slots.
- **Appointment orchestrator.** The appointment service books, cancels, reschedules and lists appointments. Each of these calls the slot ledger remotely.
- **Patient replica.** The appointment service keeps a local copy of patient status, fed by patient events. Booking checks this copy for ACTIVE status.
- **Billing.** The billing service keeps one account per patient and one bill per appointment, and records a payment that moves a bill from PENDING to PAID.
- **Patient registry.** The patient service keeps e-mail addresses unique and lets only the patient or an admin update a record.

Every service is a set of pure functions over immutable maps of records. Conventions:

- Ids are natural numbers; only their equality matters.
- Instants are whole minutes. Dates are day numbers.
- Each exception the Java code throws becomes a constructor of `Common.Error`.
- The clock is a `now` parameter.
- Randomly generated ids and the random gateway nonce are parameters too.
- A call to the doctor service is a direct call on the ledger plus a `Transport` argument. When the transport is `Down`, the call fails with `Unreachable` and the ledger is unchanged.
- The patient service's billing call takes a `Transport` argument in the same way.
- The events a service publishes, and the requests it sends out, are kept as an ordinary sequence in the returned state. Ghost fields are not used.

Files:

- `common.dfy`: `Option`/`Result`, ids, errors, ASCII case folding.
- `ledger.dfy`: slot ledger.
- `generation.dfy`: slot generation.
- `replica.dfy`: patient replica.
- `appointments.dfy`: appointment service.
- `protocol.dfy`: the store/ledger invariant.
- `billing.dfy`: billing.
- `patients.dfy`: patient registry.
- `scenarios.dfy`: properties that span several operations or services.

The central invariant is `BookingProtocol.Coherent`. It holds when all of the following are true:

- every slot is booked exactly when it names a holder;
- every SCHEDULED or RESCHEDULED appointment holds its slot at its doctor;
- every slot holder is a stored, non-FAILED appointment.

Book, cancel and reschedule preserve it under every combination of remote-call outcomes.

## Model

| member | source | states |
|---|---|---|
| `SlotLedger.MarkSlotBooked` | doctor-service/src/main/java/com/roushan/doctorservice/service/DoctorService.java:186-224 | Reserve succeeds exactly when the slot exists for that doctor and is free or already held by the same appointment. An unknown slot/doctor pair is NotFound; a slot held by another appointment is refused. On success the slot is held by the caller, no other slot and no time window changes, a slot already held by the caller is left as is, and booked-iff-holder is preserved. |
| `SlotLedger.MarkSlotUnbooked` | doctor-service/src/main/java/com/roushan/doctorservice/service/DoctorService.java:231-248 | Release succeeds exactly when the slot exists for that doctor and is held by the caller. The errors are NotFound for an unknown slot, a bad request for a free slot, and Forbidden for another holder. On success both the flag and the holder are cleared, nothing else changes, and booked-iff-holder is preserved. |
| `SlotLedger.ReserveIdempotent` | doctor-service/src/main/java/com/roushan/doctorservice/service/DoctorService.java:197-203 | A successful reserve repeated with the same arguments gives the same answer and the same ledger. |
| `SlotLedger.ForeignHoldIsStable` | doctor-service/src/main/java/com/roushan/doctorservice/service/DoctorService.java:204-242 | A slot held by another appointment can be neither reserved nor released by the caller. |
| `SlotLedger.ReserveThenReleaseRestores` | doctor-service/src/main/java/com/roushan/doctorservice/service/DoctorService.java:212-247 | On a consistent ledger, reserving a free slot and then releasing it by the same appointment gives back exactly the original ledger. |
| `SlotLedger.CreateDoctorSlot` | doctor-service/src/main/java/com/roushan/doctorservice/service/DoctorService.java:98-132 | Creation succeeds exactly when all of these hold: the doctor exists; path and body name the same doctor; end is after start; no free slot of the doctor that starts within one minute of the requested window overlaps it; and the (doctor, start, end) unique key is unused. The failed checks give, in the code's order: NotFound, DoctorMismatch, EmptyInterval, Overlap, and Duplicate for the unique key. The new slot is unbooked, keeps the request's appointment id, and every existing slot is unchanged. |
| `SlotLedger.DuplicateOnlyForBookedTwin` | doctor-service/src/main/java/com/roushan/doctorservice/model/DoctorSlot.java:13-16 | A creation refused by the (doctor, start, end) unique key always has a slot with that window, and every such slot is booked. A free slot with the same window is caught by the overlap check first. |
| `SlotLedger.CreateCanBreakConsistency` | doctor-service/src/main/java/com/roushan/doctorservice/service/DoctorService.java:128-130 | A creation request that carries an appointment id yields an unbooked slot that names a holder, so creation does not preserve booked-iff-holder. |
| `SlotLedger.OverlapCheckMissesEarlierSlot` | doctor-service/src/main/java/com/roushan/doctorservice/service/DoctorService.java:114-124 | Counterexample: a free 09:00-10:00 slot does not stop 09:20-09:40 from being created. The result has two overlapping slots for one doctor. The corrected check refuses the request. |
| `SlotLedger.OverlapCheckIgnoresBookedSlot` | doctor-service/src/main/java/com/roushan/doctorservice/repository/DoctorSlotRepository.java:19 | A booked slot is invisible to the overlap lookup, even when it starts at the same minute as the request. |
| `SlotLedger.CreateDoctorSlotChecked` | doctor-service/src/main/java/com/roushan/doctorservice/service/DoctorService.java:111-124 | The intended creation checks against every slot of the doctor. It succeeds exactly when nothing overlaps, and it preserves "no two slots of a doctor share a minute". |
| `SlotGeneration.DaySlotsBounds` | doctor-service/src/main/java/com/roushan/doctorservice/service/DoctorService.java:271-281 | One day's slots are unbooked and last exactly the duration. They start at the window start, none ends after the window end, and there is no room for one more slot. |
| `SlotGeneration.DaySlotsAbut` | doctor-service/src/main/java/com/roushan/doctorservice/service/DoctorService.java:272-280 | Within one day, each slot ends exactly where the next begins, and the slots are in time order without overlap. |
| `SlotGeneration.RangeSlotsShape` | doctor-service/src/main/java/com/roushan/doctorservice/service/DoctorService.java:268-283 | Over a date range, every slot is unbooked and of the requested length. Each slot lies inside the daily window of one of the dates, and the slots are in time order without overlap. |
| `SlotGeneration.GenerateSlotsForDoctor` | doctor-service/src/main/java/com/roushan/doctorservice/service/DoctorService.java:253-290 | Errors, in order: unknown doctor, inactive doctor, non-positive duration, empty daily window. Otherwise the nested loops produce exactly the day-by-day tiling, with every slot fresh, inside one day's window, and in time order. |
| `PatientReplica.HandlePatientEvent` | appointment-service/src/main/java/com/roushan/appointmentservice/kafka/PatientEventListener.java:37-75 | A created or updated event leaves exactly one record for the id, with name, e-mail and status taken from the event, whether or not a record existed. A deleted event on a known patient sets the status to DELETED and keeps name and e-mail. A deleted event for an unknown patient, an unknown event type, or an unparsable id changes nothing. No other record is touched. |
| `PatientReplica.RedeliveryIsIdempotent` | appointment-service/src/main/java/com/roushan/appointmentservice/kafka/PatientEventListener.java:43-69 | Handling the same event twice gives the same replica as handling it once at the later time. |
| `PatientReplica.DeletedPatientIsNotActive` | appointment-service/src/main/java/com/roushan/appointmentservice/kafka/PatientEventListener.java:63-69 | After a deleted event, the patient's status does not read ACTIVE in any letter case. |
| `Appointments.ResolvePatient` | appointment-service/src/main/java/com/roushan/appointmentservice/service/AppointmentService.java:47-61 | An admin must name the patient, or the request is refused. A non-admin always books for their own id; naming another id, or having no id, is Forbidden. |
| `Appointments.CheckBooking` | appointment-service/src/main/java/com/roushan/appointmentservice/service/AppointmentService.java:47-86 | Booking passes its checks exactly when all of these hold: the patient resolves and is ACTIVE (ignoring case) in the replica; the time is at least 15 minutes ahead; and a slot is named. Each failure has its own error, in the code's order. |
| `Appointments.Book` | appointment-service/src/main/java/com/roushan/appointmentservice/service/AppointmentService.java:89-131 | A refused booking writes nothing and calls nothing. Otherwise one new appointment is saved PENDING with the requested patient, doctor, time and slot, and then one reserve call is made. The appointment ends SCHEDULED exactly when the reserve succeeds, and then holds the slot. Otherwise it ends FAILED, an error wrapping the ledger's is returned, and the ledger is unchanged. |
| `Appointments.Authorize` | appointment-service/src/main/java/com/roushan/appointmentservice/service/AppointmentService.java:137-142 | An unknown appointment is NotFound. A non-admin who is not the appointment's patient is Forbidden. |
| `Appointments.CheckOpen` | appointment-service/src/main/java/com/roushan/appointmentservice/service/AppointmentService.java:144-149 | COMPLETED and CANCELED appointments are refused, each with its own reason. PENDING and FAILED appointments pass. |
| `Appointments.Cancel` | appointment-service/src/main/java/com/roushan/appointmentservice/service/AppointmentService.java:137-183 | Cancel succeeds exactly when the appointment exists, the caller may change it, it is neither COMPLETED nor CANCELED, and it is at least an hour ahead. A refusal changes nothing. On success, only the status becomes CANCELED, whatever the release does. A release is attempted only when a slot is recorded, and its failure is ignored. |
| `Appointments.CheckReschedule` | appointment-service/src/main/java/com/roushan/appointmentservice/service/AppointmentService.java:188-225 | Reschedule passes its checks exactly when the appointment exists, the caller may change it, it is neither COMPLETED nor CANCELED, the new time is at least 30 minutes ahead, and a new slot is named. Each failure has its own error, in the code's order. |
| `Appointments.Reschedule` | appointment-service/src/main/java/com/roushan/appointmentservice/service/AppointmentService.java:188-303 | The new slot is always reserved first, even when it is unchanged, with the new doctor defaulting to the old one. If that reserve fails, nothing is written and an error is returned. Otherwise the old slot is released exactly when it is recorded and differs from the new one, and a failed release is ignored. The appointment becomes RESCHEDULED with the new time, doctor and slot, and holds the new slot. The ledger afterwards is the reserve's ledger, with the release applied when it succeeds. |
| `Appointments.GetAllAppointments` | appointment-service/src/main/java/com/roushan/appointmentservice/service/AppointmentService.java:308-340 | An admin sees every appointment and a patient sees their own. A doctor sees theirs once the doctor service confirms the doctor; a failed check is an error. With no identity the request is Forbidden. CANCELED and FAILED appointments are never listed, and listed records are unchanged. |
| `BookingProtocol.CoherentMeansNoSharedSlot` | doctor-service/src/main/java/com/roushan/doctorservice/service/DoctorService.java:197-216 | Under the store/ledger invariant, two distinct live appointments never name the same slot. |
| `BookingProtocol.ReserveSparesOthers` | doctor-service/src/main/java/com/roushan/doctorservice/service/DoctorService.java:197-216 | A successful reserve never touches a slot held by another appointment. |
| `BookingProtocol.BookKeepsCoherent` | appointment-service/src/main/java/com/roushan/appointmentservice/service/AppointmentService.java:89-131 | Booking preserves the store/ledger invariant, whether the reserve succeeds, is refused, or is unreachable. |
| `BookingProtocol.CancelKeepsCoherent` | appointment-service/src/main/java/com/roushan/appointmentservice/service/AppointmentService.java:154-183 | Cancelling preserves the store/ledger invariant, whether or not the release goes through. |
| `BookingProtocol.RescheduleKeepsCoherent` | appointment-service/src/main/java/com/roushan/appointmentservice/service/AppointmentService.java:237-303 | Rescheduling preserves the store/ledger invariant under every outcome of the reserve and release calls. |
| `BookingProtocol.RescheduleMovesHold` | appointment-service/src/main/java/com/roushan/appointmentservice/service/AppointmentService.java:237-303 | Moving an appointment from the slot it holds to a free slot, with both calls getting through, frees the old slot and keeps its window. The new slot is held by the appointment, and every other slot is unchanged. |
| `Billing.CreateBillingAccount` | billing-service/src/main/java/com/pm/billingservice/service/BillingAccountService.java:30-63 | An id that is not a UUID is refused. An existing account for the patient is returned, and the state is unchanged. Otherwise exactly one ACTIVE account with the given patient, name and e-mail is added, and exactly one created event is appended. At most one account per patient is preserved. |
| `Billing.CreateBillingAccountIdempotent` | billing-service/src/main/java/com/pm/billingservice/service/BillingAccountService.java:33-38 | Creating the account a second time, with any name, time or fresh id, returns the first account and changes nothing, so the created event is published once. |
| `Billing.UpdateBillingAccountStatus` | billing-service/src/main/java/com/pm/billingservice/service/BillingAccountService.java:67-87 | An unknown account is NotFound. Otherwise only that account's status changes, and one updated event carrying the new status is appended. |
| `Billing.GenerateBillForAppointment` | billing-service/src/main/java/com/pm/billingservice/service/BillService.java:30-69 | An existing bill for the appointment is returned, and the state is unchanged. Without a billing account for the patient the result is NotFound and nothing is created. Otherwise exactly one bill is added with these fields: status PENDING; the base fee; the currency; the patient's account; the copied appointment, patient and doctor ids; and a due date 15 days after the issue date. At most one bill per appointment is preserved. |
| `Billing.GenerateBillIdempotent` | billing-service/src/main/java/com/pm/billingservice/service/BillService.java:35-39 | A second generation for the same appointment returns the first bill and changes nothing. |
| `Billing.ProcessPayment` | billing-service/src/main/java/com/pm/billingservice/service/PaymentService.java:36-89 | An unknown bill is NotFound. A bill reading PAID in any letter case is refused, and so is a total of zero or less; these failures change nothing. Otherwise exactly one SUCCESS transaction is added, copying the bill's id, account, amount and currency. The bill becomes PAID with its payment time, and one payment-received event is appended. |
| `Billing.SecondPaymentRejected` | billing-service/src/main/java/com/pm/billingservice/service/PaymentService.java:43-71 | Once a payment succeeds, a second payment of the same bill is refused as already paid. |
| `Billing.ProcessPaymentKeepsSettled` | billing-service/src/main/java/com/pm/billingservice/service/PaymentService.java:36-89 | Payment preserves these facts: every transaction is for a known bill that reads PAID, no bill has two transactions, and the unique columns hold. |
| `Billing.GenerateBillKeepsSettled` | billing-service/src/main/java/com/pm/billingservice/service/BillService.java:30-69 | Bill generation preserves the same facts. |
| `Billing.AccountOperationsKeepSettled` | billing-service/src/main/java/com/pm/billingservice/service/BillingAccountService.java:30-87 | Account creation and status update preserve the same facts. |
| `PatientRegistry.CreatePatient` | patient-service/src/main/java/com/pm/patientservice/service/PatientService.java:58-71 | An e-mail already in use is refused. A contact already in use is refused by the unique column. Both refusals change nothing. Otherwise exactly one patient is added, carrying the request's fields and today's registration date, before the billing call. If the billing service is reached, a billing-account request and then a patient-created event are sent and the id is returned. If it is not reached, the patient stays stored, nothing is sent and the caller gets an error. Distinct e-mails are preserved on every path. |
| `PatientRegistry.RetryAfterBillingOutageIsRefused` | patient-service/src/main/java/com/pm/patientservice/service/PatientService.java:58-71 | After a create that lost its billing call, the patient is stored but nothing was sent. Retrying the same request is refused as a taken e-mail, whatever the billing service does, so that patient's billing request and created event are never sent. |
| `PatientRegistry.UpdatePatient` | patient-service/src/main/java/com/pm/patientservice/service/PatientService.java:73-106 | An unknown id is NotFound. The caller must be an admin or the patient whose stored e-mail equals the login name, or the request is Forbidden. An e-mail held by another patient is refused. Otherwise only name, address, e-mail and date of birth change, and no other patient is touched. Distinct e-mails are preserved. |
| `PatientRegistry.DeletePatient` | patient-service/src/main/java/com/pm/patientservice/service/PatientService.java:109-114 | An unknown id is NotFound. Otherwise exactly that id is removed, and no other record changes. |
| `PatientRegistry.IsOwner` | patient-service/src/main/java/com/pm/patientservice/service/PatientService.java:129-134 | An unknown patient is owned by nobody. |
| `PatientRegistry.UpdateMovesOwnership` | patient-service/src/main/java/com/pm/patientservice/service/PatientService.java:98-100 | After an update, the patient is owned by the new e-mail and by no other login name. |
| `PatientRegistry.OwnerIsUnique` | patient-service/src/main/java/com/pm/patientservice/service/PatientService.java:129-134 | With distinct e-mails, one login name owns at most one patient. |
| `PatientRegistry.DeleteIsFinal` | patient-service/src/main/java/com/pm/patientservice/service/PatientService.java:109-114 | A deleted patient is owned by nobody, and can be neither updated nor deleted again. |
| `Scenarios.ReceivedCreatedEvent` | patient-service/src/main/java/com/pm/patientservice/kafka/KafkaProducer.java:38-45 | The patient-created event carries the patient's id, name and e-mail, and an empty status. |
| `Scenarios.ReceivedCreatedEventWithStatus` | patient-service/src/main/java/com/pm/patientservice/kafka/KafkaProducer.java:38-45 | The corrected event carries the same fields, and a status reading ACTIVE. |
| `Scenarios.RegisteredPatientCannotBook` | appointment-service/src/main/java/com/roushan/appointmentservice/kafka/PatientEventListener.java:55-59 | As written, once a new patient's created event reaches the replica, the patient is not ACTIVE. Their own booking is refused as not active, with nothing written or reserved. |
| `Scenarios.RegisteredPatientCanBook` | appointment-service/src/main/java/com/roushan/appointmentservice/service/AppointmentService.java:64-86 | With the corrected event, the new patient is ACTIVE, and a timely booking naming a slot passes every check. |
| `Scenarios.DeletedPatientCannotBook` | appointment-service/src/main/java/com/roushan/appointmentservice/service/AppointmentService.java:64-69 | After a deleted event, a booking for that patient is refused, writing nothing and calling nothing. |
| `Scenarios.BookThenCancelRestoresLedger` | appointment-service/src/main/java/com/roushan/appointmentservice/service/AppointmentService.java:89-183 | Booking a free slot and cancelling in time, with both calls reaching the ledger, leaves the ledger exactly as it started and the appointment CANCELED. |
| `Scenarios.SecondBookingOfSlotFails` | appointment-service/src/main/java/com/roushan/appointmentservice/service/AppointmentService.java:99-129 | Booking a slot already held by another appointment saves the new appointment FAILED, returns the ledger's refusal, and leaves the ledger unchanged. |
| `Scenarios.CancelTwiceFails` | appointment-service/src/main/java/com/roushan/appointmentservice/service/AppointmentService.java:147-149 | After a successful cancel, a second cancel is refused as already canceled and changes nothing. |
| `Scenarios.FailedReleaseLeavesStaleHold` | appointment-service/src/main/java/com/roushan/appointmentservice/service/AppointmentService.java:259-287 | When the old slot cannot be released, the reschedule still succeeds. The appointment holds both its new and its old slot, and the store/ledger invariant still holds. |

## Left out

- HTTP plumbing to the doctor service (URI building, status mapping, blocking): replaced by a direct ledger call and a `Transport` outcome. A call that takes effect but whose reply is lost is not modelled.
- Spring transactions: the explicit writes are modelled as written. Nothing says which of them a rollback would undo, for example the FAILED save after a refused reserve.
- Concurrency: all operations are sequential. The code has no atomic compare-and-set on slots.
- Completing an appointment, `getAppointmentById`, `getAvailableSlots`, and the doctor CRUD operations are not part of this model.
- Persisting generated slots (`saveAll`): `SlotGeneration.GenerateSlotsForDoctor` returns the unsaved slots. A unique-key clash on save is not modelled.
- Kafka, protobuf and gRPC serialisation: events and outbound requests are records in a sequence. The gRPC billing endpoint returns a fixed mock, so a patient-created request does not create a billing account. A Kafka send that fails is logged and swallowed; this lost event is not modelled.
- Parsing: UUID text that does not parse is modelled only where the parse is the first step (`Billing.CreateBillingAccount`, and the replica's event id). Elsewhere ids are already parsed. Dates of birth and date-times are already parsed, so the parse errors of reschedule and update are not modelled. An empty slot-id text fails to parse in the service, and that refusal is not modelled either; an absent slot id gives the missing-slot refusal.
- `Billing.ProcessPayment`: amounts are integers instead of `double`, so NaN and rounding are not modelled; only the sign test and the copying are.
- `PatientReplica.IsActive` and `Billing.IsPaid`: letter case is folded for ASCII only. Java's `equalsIgnoreCase` also folds other alphabets.
- `PatientRegistry.CreatePatient`: the billing call either gets through or is not reached at all. A call that reaches the billing service but whose reply is lost is not modelled.
- `Appointments.GetAllAppointments`: the doctor branch assumes a repository query for a doctor's appointments. The repository interface shown declares only the patient query and leaves the doctor query as a comment.
- `Appointments.Book` and `Appointments.Reschedule`: the request's slot id is an optional field of the request. The request class shown has no slot-id accessor, although both operations read one.
- Notification, analytics, authentication, the JWT filters and the controllers are not part of this model.

## Findings

| source | as written | input that shows it | evidently intended | confidence | as-written member | corrected member |
|---|---|---|---|---|---|---|
| doctor-service/src/main/java/com/roushan/doctorservice/service/DoctorService.java:114-124 | The overlap check only looks at unbooked slots of the doctor whose start lies within one minute of the requested window. | A free slot 09:00-10:00 exists and a slot 09:20-09:40 is requested. The lookup does not return the 09:00 slot, so the request is accepted and the doctor has two overlapping slots. A booked slot at the same start is ignored in the same way. | Refuse any request that overlaps any slot of the doctor. | high (not executed) | `SlotLedger.OverlapCheckMissesEarlierSlot` | `SlotLedger.CreateDoctorSlotChecked` |
| patient-service/src/main/java/com/pm/patientservice/kafka/KafkaProducer.java:38-45 | The patient-created event sets no status, and the appointment service stores the event's status as is, which is the empty string. | Register any new patient, then book for them. The replica holds status "", so the booking is refused as not active. | The created event announces the new patient as ACTIVE. | medium (not executed) | `Scenarios.RegisteredPatientCannotBook` | `Scenarios.RegisteredPatientCanBook` |
