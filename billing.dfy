/**
 * Billing (`Bill.add`, `Bill.update`, `Bill.delete`): read a patient's staged
 * usage, total it, check the patient, write the bill row, then clear the
 * patient's staged usage.
 *
 * As the source is written, the clear runs once the patient check has passed,
 * whatever the write did: an add that hits an existing bill ID, and an update
 * that matches no bill, still drop the patient's staged usage. A missing
 * patient returns before the clear.
 */
module Billing {
  import opened Options
  import opened Text
  import opened Ledger
  import opened Store
  import Services

  /** `Bill.__init__`: a falsy billing date (`None` or empty) becomes today's date. */
  function DateOrToday(given: Option<string>, today: string): (d: string)
    ensures given == None || given == Some("") ==> d == today
    ensures given.Some? && given.value != "" ==> d == given.value
  {
    if given.None? || given.value == "" then today else given.value
  }

  /** The checks shared by add and update, in source order. */
  function Validate(billId: string, patientId: string, date: string): (r: Outcome)
    ensures r == Ok || r.Invalid?
    ensures r == Ok <==> IsAlnumId(billId) && IsAlnumId(patientId) && IsCalendarDate(date)
    ensures r == Invalid(BillId) <==> !IsAlnumId(billId)
    ensures r == Invalid(PatientId) <==> IsAlnumId(billId) && !IsAlnumId(patientId)
    ensures r == Invalid(BillingDate) <==> IsAlnumId(billId) && IsAlnumId(patientId) && !IsCalendarDate(date)
  {
    if !IsAlnumId(billId) then Invalid(BillId)
    else if !IsAlnumId(patientId) then Invalid(PatientId)
    else if !IsCalendarDate(date) then Invalid(BillingDate)
    else Ok
  }

  /** The bill row add or update writes: the patient, the sum of exactly that
      patient's staged costs, and the billing date. */
  function Charge(db: Db, patientId: string, date: string): (b: BillRow)
    ensures b.patientId == patientId && b.date == date
    ensures b.total == Total(ForPatient(db.usage, patientId))
    ensures b.total + Total(WithoutPatient(db.usage, patientId)) == Total(db.usage)
  {
    TotalSplit(db.usage, patientId);
    BillRow(patientId, Total(ForPatient(db.usage, patientId)), date)
  }

  /** `Bill.add`. */
  function Add(db: Db, billId: string, patientId: string, given: Option<string>, today: string): (r: Step)
    // a validation failure returns before the ledger or the bills are touched
    ensures Validate(billId, patientId, DateOrToday(given, today)) != Ok ==>
              r == Step(Validate(billId, patientId, DateOrToday(given, today)), db)
    // no staged usage: no bill, ledger unchanged
    ensures Validate(billId, patientId, DateOrToday(given, today)) == Ok && ForPatient(db.usage, patientId) == [] ==>
              r == Step(NoServices, db)
    ensures r.outcome == NoServices <==>
              Validate(billId, patientId, DateOrToday(given, today)) == Ok && ForPatient(db.usage, patientId) == []
    // a missing patient writes nothing and skips the clear
    ensures r.outcome == PatientMissing <==>
              && Validate(billId, patientId, DateOrToday(given, today)) == Ok
              && ForPatient(db.usage, patientId) != []
              && patientId !in db.patients
    ensures r.outcome == PatientMissing ==> r.db == db
    ensures r.outcome == Ok <==>
              && Validate(billId, patientId, DateOrToday(given, today)) == Ok
              && ForPatient(db.usage, patientId) != []
              && patientId in db.patients
              && billId !in db.bills
    ensures r.outcome == Ok ==> r.db.bills == db.bills[billId := Charge(db, patientId, DateOrToday(given, today))]
    // an existing bill ID keeps its row, yet the patient's usage is dropped
    ensures r.outcome == Duplicate <==>
              && Validate(billId, patientId, DateOrToday(given, today)) == Ok
              && ForPatient(db.usage, patientId) != []
              && patientId in db.patients
              && billId in db.bills
    ensures r.outcome == Duplicate ==> r.db.bills == db.bills && billId in db.bills
    ensures r.outcome in {Ok, Duplicate} ==>
              && r.db.usage == WithoutPatient(db.usage, patientId)
              && ForPatient(r.db.usage, patientId) == []
              && (forall q :: q != patientId ==> ForPatient(r.db.usage, q) == ForPatient(db.usage, q))
    ensures r.outcome in {Ok, Duplicate, PatientMissing, NoServices} || r.outcome.Invalid?
    // no other table changes
    ensures r.db.(bills := db.bills, usage := db.usage) == db
  {
    var date := DateOrToday(given, today);
    var v := Validate(billId, patientId, date);
    if v != Ok then Step(v, db)
    else
      var services := ForPatient(db.usage, patientId);
      if services == [] then Step(NoServices, db)
      else if patientId !in db.patients then Step(PatientMissing, db)
      else
        var written :=
          if billId in db.bills then Step(Duplicate, db)
          else Step(Ok, db.(bills := db.bills[billId := Charge(db, patientId, date)]));
        Step(written.outcome, Services.Clear(written.db, patientId).db)
  }

  /** `Bill.update`. */
  function Update(db: Db, billId: string, patientId: string, given: Option<string>, today: string): (r: Step)
    ensures Validate(billId, patientId, DateOrToday(given, today)) != Ok ==>
              r == Step(Validate(billId, patientId, DateOrToday(given, today)), db)
    ensures Validate(billId, patientId, DateOrToday(given, today)) == Ok && ForPatient(db.usage, patientId) == [] ==>
              r == Step(NoServices, db)
    ensures r.outcome == NoServices <==>
              Validate(billId, patientId, DateOrToday(given, today)) == Ok && ForPatient(db.usage, patientId) == []
    ensures r.outcome == PatientMissing <==>
              && Validate(billId, patientId, DateOrToday(given, today)) == Ok
              && ForPatient(db.usage, patientId) != []
              && patientId !in db.patients
    ensures r.outcome == PatientMissing ==> r.db == db
    ensures r.outcome == Ok <==>
              && Validate(billId, patientId, DateOrToday(given, today)) == Ok
              && ForPatient(db.usage, patientId) != []
              && patientId in db.patients
              && billId in db.bills
    // patient, total and date of the row are overwritten
    ensures r.outcome == Ok ==> r.db.bills == db.bills[billId := Charge(db, patientId, DateOrToday(given, today))]
    // no matching bill: nothing written, but the usage is still cleared
    ensures r.outcome == NotFound <==>
              && Validate(billId, patientId, DateOrToday(given, today)) == Ok
              && ForPatient(db.usage, patientId) != []
              && patientId in db.patients
              && billId !in db.bills
    ensures r.outcome == NotFound ==> r.db.bills == db.bills && billId !in db.bills
    ensures r.outcome in {Ok, NotFound} ==>
              && r.db.usage == WithoutPatient(db.usage, patientId)
              && ForPatient(r.db.usage, patientId) == []
              && (forall q :: q != patientId ==> ForPatient(r.db.usage, q) == ForPatient(db.usage, q))
    ensures r.outcome in {Ok, NotFound, PatientMissing, NoServices} || r.outcome.Invalid?
    ensures r.db.(bills := db.bills, usage := db.usage) == db
  {
    var date := DateOrToday(given, today);
    var v := Validate(billId, patientId, date);
    if v != Ok then Step(v, db)
    else
      var services := ForPatient(db.usage, patientId);
      if services == [] then Step(NoServices, db)
      else if patientId !in db.patients then Step(PatientMissing, db)
      else
        var written :=
          if billId !in db.bills then Step(NotFound, db)
          else Step(Ok, db.(bills := db.bills[billId := Charge(db, patientId, date)]));
        Step(written.outcome, Services.Clear(written.db, patientId).db)
  }

  /** `Bill.delete`: remove only the row with that ID; the ledger is never touched. */
  function Delete(db: Db, billId: string): (r: Step)
    ensures !IsAlnumId(billId) ==> r == Step(Invalid(BillId), db)
    ensures r.outcome == Ok <==> IsAlnumId(billId) && billId in db.bills
    ensures r.outcome == NotFound <==> IsAlnumId(billId) && billId !in db.bills
    ensures r.outcome == Ok ==> r.db == db.(bills := db.bills - {billId})
    ensures r.outcome != Ok ==> r.db == db
    ensures r.db.usage == db.usage
  {
    if !IsAlnumId(billId) then Step(Invalid(BillId), db)
    else if billId !in db.bills then Step(NotFound, db)
    else Step(Ok, db.(bills := db.bills - {billId}))
  }

  /** Today's date, as `date.today().strftime("%Y-%m-%d")` writes it, is a
      calendar date, so a bill without a date never fails the date check. */
  lemma TodayPassesDateCheck(billId: string, patientId: string, given: Option<string>, today: string)
    requires IsCalendarDate(today)
    requires given == None || given == Some("")
    ensures Validate(billId, patientId, DateOrToday(given, today)) != Invalid(BillingDate)
  {
  }

  /** Once a patient is billed, billing them again finds nothing to bill
      rather than writing a zero total. */
  lemma RebillFindsNothing(db: Db, billId: string, patientId: string, given: Option<string>, today: string,
                           billId2: string, given2: Option<string>)
    requires Add(db, billId, patientId, given, today).outcome == Ok
    requires Validate(billId2, patientId, DateOrToday(given2, today)) == Ok
    ensures Update(Add(db, billId, patientId, given, today).db, billId2, patientId, given2, today).outcome == NoServices
    ensures Add(Add(db, billId, patientId, given, today).db, billId2, patientId, given2, today).outcome == NoServices
  {
  }

  /** In a consistent store every bill written is non-negative and at most the
      cost ceiling times the number of entries it sums. */
  lemma {:induction false} ChargeBounds(db: Db, patientId: string, date: string)
    requires Consistent(db)
    ensures 0.0 <= Charge(db, patientId, date).total <= MaxCost * |ForPatient(db.usage, patientId)| as real
  {
    SelectionsWellFormed(db.usage, patientId);
  }

  /** Writing a validated bill row keeps the store consistent. */
  lemma WrittenKeepsConsistent(db: Db, billId: string, patientId: string, date: string)
    requires Consistent(db)
    requires Validate(billId, patientId, date) == Ok
    ensures Consistent(db.(bills := db.bills[billId := Charge(db, patientId, date)]))
  {
    ChargeBounds(db, patientId, date);
    var b := Charge(db, patientId, date);
    assert IsBillRow(b);
    var bills := db.bills[billId := b];
    forall k | k in bills ensures IsAlnumId(k) && IsBillRow(bills[k]) {
      if k != billId { assert k in db.bills; }
    }
  }

  lemma AddKeepsConsistent(db: Db, billId: string, patientId: string, given: Option<string>, today: string)
    requires Consistent(db)
    ensures Consistent(Add(db, billId, patientId, given, today).db)
  {
    var date := DateOrToday(given, today);
    var r := Add(db, billId, patientId, given, today);
    if r.outcome in {Ok, Duplicate} {
      var written := if r.outcome == Ok then db.(bills := db.bills[billId := Charge(db, patientId, date)]) else db;
      WrittenKeepsConsistent(db, billId, patientId, date);
      Services.ClearKeepsConsistent(written, patientId);
      assert r.db == Services.Clear(written, patientId).db;
    }
  }

  lemma UpdateKeepsConsistent(db: Db, billId: string, patientId: string, given: Option<string>, today: string)
    requires Consistent(db)
    ensures Consistent(Update(db, billId, patientId, given, today).db)
  {
    var date := DateOrToday(given, today);
    var r := Update(db, billId, patientId, given, today);
    if r.outcome in {Ok, NotFound} {
      var written := if r.outcome == Ok then db.(bills := db.bills[billId := Charge(db, patientId, date)]) else db;
      WrittenKeepsConsistent(db, billId, patientId, date);
      Services.ClearKeepsConsistent(written, patientId);
      assert r.db == Services.Clear(written, patientId).db;
    }
  }

  lemma DeleteKeepsConsistent(db: Db, billId: string)
    requires Consistent(db)
    ensures Consistent(Delete(db, billId).db)
  {
  }
}
