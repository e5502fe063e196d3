/**
 * The billing service: one billing account per patient, one bill per
 * completed appointment, and paying a bill in full. Amounts are whole
 * numbers; only their sign and their copying matter here.
 */
module Billing {
  import opened Wrappers
  import opened Common

  datatype BillingAccount = BillingAccount(patientId: PatientId, name: string, email: string, status: string, createdAt: Minute)

  type Accounts = map<AccountId, BillingAccount>

  datatype Bill = Bill(
    accountId: AccountId,
    appointmentId: ApptId,
    patientId: PatientId,
    doctorId: DoctorId,
    issueDate: Minute,
    dueDate: Minute,
    totalAmount: int,
    currency: string,
    status: string,
    paidAt: Option<Minute>)

  type Bills = map<BillId, Bill>

  datatype Transaction = Transaction(
    billId: BillId,
    accountId: AccountId,
    amount: int,
    currency: string,
    paymentMethod: string,
    status: string,
    gatewayId: string,
    date: Minute)

  type Transactions = map<TxnId, Transaction>

  /** The events the billing service publishes, in the order it publishes them. */
  datatype BillingEvent =
    | AccountEvent(accountId: AccountId, patientId: PatientId, name: string, email: string, status: string,
                   eventType: string, timestamp: Minute)
    | PaymentReceived(txnId: TxnId, billId: BillId, accountId: AccountId, patientId: PatientId, amount: int,
                      currency: string, paymentMethod: string, eventType: string, timestamp: Minute)

  const AccountCreated: string := "BILLING_ACCOUNT_CREATED"
  const AccountUpdated: string := "BILLING_ACCOUNT_UPDATED"
  const PaymentReceivedType: string := "PAYMENT_RECEIVED"
  const Pending: string := "PENDING"
  const Paid: string := "PAID"
  const Success: string := "SUCCESS"
  const ActiveStatus: string := "ACTIVE"
  const GatewayPrefix: string := "GATEWAY_TXN_"

  /** A bill falls due fifteen days after it is issued. */
  const DaysToPay: int := 15

  datatype BillingState = BillingState(accounts: Accounts, bills: Bills, transactions: Transactions, events: seq<BillingEvent>)

  /** The state after an operation, and the id of the record it returns. */
  datatype Step = Step(state: BillingState, id: nat)

  // ------------------------------------------------------ database constraints

  /** The unique column on the account's patient id. */
  predicate UniquePatients(accounts: Accounts) {
    forall a, b :: a in accounts && b in accounts && accounts[a].patientId == accounts[b].patientId ==> a == b
  }

  /** The unique column on the bill's appointment id. */
  predicate UniqueAppointments(bills: Bills) {
    forall a, b :: a in bills && b in bills && bills[a].appointmentId == bills[b].appointmentId ==> a == b
  }

  /** `findByPatientId`. */
  function AccountOf(accounts: Accounts, p: PatientId): (r: Option<AccountId>)
    requires UniquePatients(accounts)
    ensures r.None? <==> forall id :: id in accounts ==> accounts[id].patientId != p
    ensures r.Some? ==> r.value in accounts && accounts[r.value].patientId == p
  {
    if exists id :: id in accounts && accounts[id].patientId == p then
      var id :| id in accounts && accounts[id].patientId == p;
      Some(id)
    else
      None
  }

  /** `findByAppointmentId`. */
  function BillOf(bills: Bills, appt: ApptId): (r: Option<BillId>)
    requires UniqueAppointments(bills)
    ensures r.None? <==> forall id :: id in bills ==> bills[id].appointmentId != appt
    ensures r.Some? ==> r.value in bills && bills[r.value].appointmentId == appt
  {
    if exists id :: id in bills && bills[id].appointmentId == appt then
      var id :| id in bills && bills[id].appointmentId == appt;
      Some(id)
    else
      None
  }

  // --------------------------------------------------------------- accounts

  /**
   * `createBillingAccount`: the patient id arrives as text (`None` when it is
   * not a UUID). An existing account for the patient is returned as it is;
   * otherwise a new ACTIVE account is saved and a created event published.
   */
  function CreateBillingAccount(st: BillingState, patientId: Option<PatientId>, name: string, email: string,
                                now: Minute, newId: AccountId): (r: Result<Step, Error>)
    requires UniquePatients(st.accounts) && newId !in st.accounts
    ensures patientId.None? ==> r == Err(BadRequest(MalformedId))
    ensures patientId.Some? ==> r.Ok?
    ensures r.Ok? ==> UniquePatients(r.value.state.accounts)
    ensures r.Ok? ==> r.value.id in r.value.state.accounts && r.value.state.accounts[r.value.id].patientId == patientId.value
    ensures r.Ok? ==> r.value.state.bills == st.bills && r.value.state.transactions == st.transactions
    ensures r.Ok? && AccountOf(st.accounts, patientId.value).Some? ==>
              r.value == Step(st, AccountOf(st.accounts, patientId.value).value)
    ensures r.Ok? && AccountOf(st.accounts, patientId.value).None? ==>
              && r.value.id == newId
              && r.value.state.accounts == st.accounts[newId := BillingAccount(patientId.value, name, email, ActiveStatus, now)]
              && r.value.state.events == st.events + [AccountEvent(newId, patientId.value, name, email, ActiveStatus, AccountCreated, now)]
  {
    match patientId
    case None => Err(BadRequest(MalformedId))
    case Some(p) =>
      match AccountOf(st.accounts, p)
      case Some(existing) => Ok(Step(st, existing))
      case None =>
        var account := BillingAccount(p, name, email, ActiveStatus, now);
        var event := AccountEvent(newId, p, name, email, ActiveStatus, AccountCreated, now);
        Ok(Step(st.(accounts := st.accounts[newId := account], events := st.events + [event]), newId))
  }

  /**
   * Creating the account again, at any later time and with any new id,
   * returns the first account and changes nothing: the created event is
   * published once.
   */
  lemma {:induction false} CreateBillingAccountIdempotent(st: BillingState, p: PatientId, name: string, email: string,
                                                          t1: Minute, id1: AccountId, name2: string, email2: string,
                                                          t2: Minute, id2: AccountId)
    requires UniquePatients(st.accounts) && id1 !in st.accounts
    requires id2 !in CreateBillingAccount(st, Some(p), name, email, t1, id1).value.state.accounts
    ensures var once := CreateBillingAccount(st, Some(p), name, email, t1, id1).value;
            CreateBillingAccount(once.state, Some(p), name2, email2, t2, id2) == Ok(once)
  {
    var once := CreateBillingAccount(st, Some(p), name, email, t1, id1).value;
    var found := AccountOf(once.state.accounts, p);
    assert found.Some?;
    assert found.value == once.id;
  }

  /**
   * `updateBillingAccountStatus`: set the status of an existing account and
   * publish an updated event carrying it; an unknown account is an error.
   */
  function UpdateBillingAccountStatus(st: BillingState, accountId: AccountId, newStatus: string, now: Minute): (r: Result<Step, Error>)
    ensures accountId !in st.accounts <==> r == Err(NotFound)
    ensures r.Ok? ==>
              var a := st.accounts[accountId];
              && r.value.id == accountId
              && r.value.state.accounts.Keys == st.accounts.Keys
              && r.value.state.accounts[accountId] == BillingAccount(a.patientId, a.name, a.email, newStatus, a.createdAt)
              && (forall id :: id in st.accounts && id != accountId ==> r.value.state.accounts[id] == st.accounts[id])
              && r.value.state.bills == st.bills && r.value.state.transactions == st.transactions
              && r.value.state.events == st.events + [AccountEvent(accountId, a.patientId, a.name, a.email, newStatus, AccountUpdated, now)]
    ensures r.Ok? && UniquePatients(st.accounts) ==> UniquePatients(r.value.state.accounts)
  {
    if accountId !in st.accounts then Err(NotFound)
    else
      var a := st.accounts[accountId].(status := newStatus);
      var event := AccountEvent(accountId, a.patientId, a.name, a.email, newStatus, AccountUpdated, now);
      Ok(Step(st.(accounts := st.accounts[accountId := a], events := st.events + [event]), accountId))
  }

  // ------------------------------------------------------------------ bills

  /**
   * `generateBillForAppointment`: an existing bill for the appointment is
   * returned as it is; without a billing account for the patient nothing is
   * created; otherwise a PENDING bill for the base fee, due in fifteen days.
   */
  function GenerateBillForAppointment(st: BillingState, appointmentId: ApptId, patientId: PatientId, doctorId: DoctorId,
                                      baseFee: int, currency: string, now: Minute, newId: BillId): (r: Result<Step, Error>)
    requires UniquePatients(st.accounts) && UniqueAppointments(st.bills) && newId !in st.bills
    ensures BillOf(st.bills, appointmentId).Some? ==> r == Ok(Step(st, BillOf(st.bills, appointmentId).value))
    ensures BillOf(st.bills, appointmentId).None? ==> (r.Err? <==> AccountOf(st.accounts, patientId).None?)
    ensures r.Err? ==> r.error == NotFound
    ensures r.Ok? ==> UniqueAppointments(r.value.state.bills)
    ensures r.Ok? ==> r.value.id in r.value.state.bills && r.value.state.bills[r.value.id].appointmentId == appointmentId
    ensures r.Ok? ==>
              && r.value.state.accounts == st.accounts
              && r.value.state.transactions == st.transactions
              && r.value.state.events == st.events
    ensures r.Ok? && BillOf(st.bills, appointmentId).None? ==>
              && r.value.id == newId
              && newId in r.value.state.bills
              && var b := r.value.state.bills[newId];
              && r.value.state.bills == st.bills[newId := b]
              && b.accountId == AccountOf(st.accounts, patientId).value
              && st.accounts[b.accountId].patientId == patientId
              && b.appointmentId == appointmentId && b.patientId == patientId && b.doctorId == doctorId
              && b.status == Pending && b.totalAmount == baseFee && b.currency == currency
              && b.issueDate == now && b.dueDate == b.issueDate + DaysToPay * MinutesPerDay
              && b.paidAt.None?
  {
    match BillOf(st.bills, appointmentId)
    case Some(existing) => Ok(Step(st, existing))
    case None =>
      match AccountOf(st.accounts, patientId)
      case None => Err(NotFound)
      case Some(accountId) =>
        var bill := Bill(accountId, appointmentId, patientId, doctorId, now, now + DaysToPay * MinutesPerDay,
                         baseFee, currency, Pending, None);
        Ok(Step(st.(bills := st.bills[newId := bill]), newId))
  }

  /** A redelivered appointment-completed event yields the same bill and no second one. */
  lemma {:induction false} GenerateBillIdempotent(st: BillingState, appt: ApptId, patient: PatientId, doctor: DoctorId,
                                                  fee: int, currency: string, t1: Minute, id1: BillId,
                                                  fee2: int, t2: Minute, id2: BillId)
    requires UniquePatients(st.accounts) && UniqueAppointments(st.bills) && id1 !in st.bills
    requires GenerateBillForAppointment(st, appt, patient, doctor, fee, currency, t1, id1).Ok?
    requires id2 !in GenerateBillForAppointment(st, appt, patient, doctor, fee, currency, t1, id1).value.state.bills
    ensures var once := GenerateBillForAppointment(st, appt, patient, doctor, fee, currency, t1, id1).value;
            GenerateBillForAppointment(once.state, appt, patient, doctor, fee2, currency, t2, id2) == Ok(once)
  {
    var once := GenerateBillForAppointment(st, appt, patient, doctor, fee, currency, t1, id1).value;
    var found := BillOf(once.state.bills, appt);
    assert found.Some?;
    assert found.value == once.id;
  }

  // --------------------------------------------------------------- payments

  predicate IsPaid(b: Bill) {
    EqualsIgnoreCase(Paid, b.status)
  }

  /**
   * `processPayment`: pay a bill in full. An unknown bill, a bill already
   * PAID (in any letter case) and a bill for nothing are refused. The
   * gateway reference is the prefix followed by the first eight characters
   * of a random UUID's text, `nonce`.
   */
  function ProcessPayment(st: BillingState, billId: BillId, paymentMethod: string, now: Minute,
                          nonce: string, newTxn: TxnId): (r: Result<Step, Error>)
    requires newTxn !in st.transactions && |nonce| >= 8
    ensures billId !in st.bills ==> r == Err(NotFound)
    ensures billId in st.bills && IsPaid(st.bills[billId]) ==> r == Err(BadRequest(AlreadyPaid))
    ensures billId in st.bills && !IsPaid(st.bills[billId]) && st.bills[billId].totalAmount <= 0 ==>
              r == Err(BadRequest(NonPositiveAmount))
    ensures r.Ok? <==> billId in st.bills && !IsPaid(st.bills[billId]) && st.bills[billId].totalAmount > 0
    ensures r.Ok? ==>
              var b := st.bills[billId];
              && r.value.id == newTxn
              && newTxn in r.value.state.transactions
              && var t := r.value.state.transactions[newTxn];
              && r.value.state.transactions == st.transactions[newTxn := t]
              && t.billId == billId && t.accountId == b.accountId && t.amount == b.totalAmount && t.currency == b.currency
              && t.paymentMethod == paymentMethod && t.status == Success && t.date == now
              && t.gatewayId == GatewayPrefix + nonce[..8]
              && r.value.state.bills == st.bills[billId := b.(status := Paid, paidAt := Some(now))]
              && r.value.state.accounts == st.accounts
              && r.value.state.events == st.events + [PaymentReceived(newTxn, billId, b.accountId, b.patientId, b.totalAmount,
                                                                      b.currency, paymentMethod, PaymentReceivedType, now)]
  {
    if billId !in st.bills then Err(NotFound)
    else
      var b := st.bills[billId];
      if IsPaid(b) then Err(BadRequest(AlreadyPaid))
      else if b.totalAmount <= 0 then Err(BadRequest(NonPositiveAmount))
      else
        var t := Transaction(billId, b.accountId, b.totalAmount, b.currency, paymentMethod, Success, GatewayPrefix + nonce[..8], now);
        var event := PaymentReceived(newTxn, billId, b.accountId, b.patientId, b.totalAmount, b.currency, paymentMethod, PaymentReceivedType, now);
        Ok(Step(BillingState(st.accounts, st.bills[billId := b.(status := Paid, paidAt := Some(now))],
                             st.transactions[newTxn := t], st.events + [event]), newTxn))
  }

  /** A bill paid once is refused the second time, with nothing recorded. */
  lemma {:induction false} SecondPaymentRejected(st: BillingState, billId: BillId, m1: string, t1: Minute, n1: string, x1: TxnId,
                                                 m2: string, t2: Minute, n2: string, x2: TxnId)
    requires x1 !in st.transactions && |n1| >= 8 && |n2| >= 8
    requires ProcessPayment(st, billId, m1, t1, n1, x1).Ok?
    requires x2 !in ProcessPayment(st, billId, m1, t1, n1, x1).value.state.transactions
    ensures ProcessPayment(ProcessPayment(st, billId, m1, t1, n1, x1).value.state, billId, m2, t2, n2, x2)
            == Err(BadRequest(AlreadyPaid))
  {
    var paid := ProcessPayment(st, billId, m1, t1, n1, x1).value.state;
    assert paid.bills[billId].status == Paid;
    assert IsPaid(paid.bills[billId]);
  }

  // ------------------------------------------------------------- invariant

  /**
   * Every recorded payment is for a known, paid bill, and no bill has been
   * paid twice; together with the unique columns.
   */
  predicate Settled(st: BillingState) {
    && UniquePatients(st.accounts)
    && UniqueAppointments(st.bills)
    && (forall t :: t in st.transactions ==> st.transactions[t].billId in st.bills && IsPaid(st.bills[st.transactions[t].billId]))
    && (forall t, u :: t in st.transactions && u in st.transactions && st.transactions[t].billId == st.transactions[u].billId ==> t == u)
  }

  lemma {:induction false} ProcessPaymentKeepsSettled(st: BillingState, billId: BillId, m: string, now: Minute, nonce: string, x: TxnId)
    requires Settled(st) && x !in st.transactions && |nonce| >= 8
    ensures ProcessPayment(st, billId, m, now, nonce, x).Ok? ==> Settled(ProcessPayment(st, billId, m, now, nonce, x).value.state)
  {
    var r := ProcessPayment(st, billId, m, now, nonce, x);
    if r.Ok? {
      var st' := r.value.state;
      assert IsPaid(st'.bills[billId]);
      forall t | t in st.transactions
        ensures st.transactions[t].billId != billId
      {
        assert !IsPaid(st.bills[billId]);
      }
      forall a, b | a in st'.bills && b in st'.bills && st'.bills[a].appointmentId == st'.bills[b].appointmentId
        ensures a == b
      {
        assert st.bills[a].appointmentId == st'.bills[a].appointmentId;
        assert st.bills[b].appointmentId == st'.bills[b].appointmentId;
      }
    }
  }

  lemma {:induction false} GenerateBillKeepsSettled(st: BillingState, appt: ApptId, patient: PatientId, doctor: DoctorId,
                                                    fee: int, currency: string, now: Minute, newId: BillId)
    requires Settled(st) && newId !in st.bills
    ensures GenerateBillForAppointment(st, appt, patient, doctor, fee, currency, now, newId).Ok? ==>
              Settled(GenerateBillForAppointment(st, appt, patient, doctor, fee, currency, now, newId).value.state)
  {
    var r := GenerateBillForAppointment(st, appt, patient, doctor, fee, currency, now, newId);
    if r.Ok? {
      var st' := r.value.state;
      forall t | t in st'.transactions
        ensures st'.transactions[t].billId in st'.bills && IsPaid(st'.bills[st'.transactions[t].billId])
      {
        assert st.transactions[t].billId in st.bills;
        assert st'.bills[st.transactions[t].billId] == st.bills[st.transactions[t].billId];
      }
    }
  }

  lemma AccountOperationsKeepSettled(st: BillingState, p: Option<PatientId>, name: string, email: string,
                                      now: Minute, newId: AccountId, target: AccountId, status: string)
    requires Settled(st) && newId !in st.accounts
    ensures CreateBillingAccount(st, p, name, email, now, newId).Ok? ==>
              Settled(CreateBillingAccount(st, p, name, email, now, newId).value.state)
    ensures UpdateBillingAccountStatus(st, target, status, now).Ok? ==>
              Settled(UpdateBillingAccountStatus(st, target, status, now).value.state)
  {
  }
}
