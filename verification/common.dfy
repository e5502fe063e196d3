/** Failure-compatible wrappers used by every service model. */
module Wrappers {

  /** A value that may be absent: the model of a nullable Java reference. */
  datatype Option<+T> = None | Some(value: T) {

    /** The carried value, or `default` when absent. */
    function GetOr(default: T): T {
      match this
      case Some(v) => v
      case None => default
    }
  }

  /** The outcome of a service call: a value, or the error the Java code throws. */
  datatype Result<+T, +E> = Ok(value: T) | Err(error: E) {

    predicate IsFailure() {
      Err?
    }

    function PropagateFailure<U>(): Result<U, E>
      requires Err?
    {
      Err(error)
    }

    function Extract(): T
      requires Ok?
    {
      value
    }
  }
}

/**
 * Identities, clock units, the error taxonomy shared by the services, and
 * the case-insensitive string comparison the services use for status words.
 */
module Common {

  // Every entity id is a UUID in the services; only equality matters here.
  type PatientId = nat
  type DoctorId = nat
  type SlotId = nat
  type ApptId = nat
  type AccountId = nat
  type BillId = nat
  type TxnId = nat

  /** A point in time, counted in whole minutes. */
  type Minute = int

  const MinutesPerDay: int := 1440

  /** Why a request was turned away with an IllegalArgumentException. */
  datatype Reason =
    | MissingPatientId     // an admin booked without naming the patient
    | PatientNotActive     // the local patient replica does not say ACTIVE
    | TooSoon              // the requested time is inside the lead time
    | MissingSlotId        // no doctor slot named in the request
    | AlreadyCompleted     // the appointment is COMPLETED
    | AlreadyCanceled      // the appointment is CANCELED
    | TooLateToCancel      // less than an hour before the appointment
    | SlotTaken            // the slot is held by another appointment
    | SlotNotBooked        // releasing a slot that is already free
    | DoctorMismatch       // path and body name different doctors
    | EmptyInterval        // end time not after start time
    | Overlap              // an overlapping slot was found
    | DoctorInactive       // slot generation for a doctor not ACTIVE
    | NonPositiveDuration  // slot generation with duration <= 0
    | AlreadyPaid          // paying a bill whose status is PAID
    | NonPositiveAmount    // paying a bill whose total is <= 0
    | MalformedId          // a UUID string that does not parse

  /**
   * The services' exceptions, one constructor per kind of outcome a caller
   * can tell apart.
   */
  datatype Error =
    | NotFound                     // ResourceNotFound / PatientNotFound / "not found" RuntimeException
    | Forbidden                    // SecurityException / AccessDeniedException
    | BadRequest(reason: Reason)   // IllegalArgumentException
    | EmailTaken                   // EmailAlreadyExistsException
    | Duplicate                    // a database unique constraint rejected the save
    | Unreachable                  // the remote service could not be reached
    | RemoteFailure(cause: Error)  // a doctor-service call failed; rethrown as RuntimeException

  /** Whether a call to another service gets through. */
  datatype Transport = Up | Down

  /** ASCII upper-casing of one character. */
  function UpperAscii(c: char): (u: char)
    ensures 'a' <= c <= 'z' ==> u as int == c as int - 32
    ensures !('a' <= c <= 'z') ==> u == c
  {
    if 'a' <= c <= 'z' then (c as int - 32) as char else c
  }

  /** `a.equalsIgnoreCase(b)` for ASCII text. */
  predicate EqualsIgnoreCase(a: string, b: string)
  {
    |a| == |b| && forall i :: 0 <= i < |a| ==> UpperAscii(a[i]) == UpperAscii(b[i])
  }
}
