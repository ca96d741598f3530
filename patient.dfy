/**
 * Patients (`Patient.add/update/delete`). The patient ID must read as a
 * positive integer; add stores that integer (so a row's key is its canonical
 * decimal), while update and delete match the ID as given. Add and update
 * differ in how strictly they check the age and the admission date.
 */
module Patients {
  import opened Options
  import opened Text
  import opened Store

  /** The age as the caller gives it: an `int`, or text for `int()` to read. */
  datatype AgeInput = IntAge(n: int) | TextAge(s: string)

  datatype PatientInput = PatientInput(
    patientId: string, name: string, age: AgeInput, gender: string, admissionDate: string, contact: string)

  /** `int(patient_id)` read as a positive number. */
  function PatientNumber(id: string): (r: Option<nat>)
    ensures r.Some? <==> IsPatientKey(id)
    ensures r.Some? ==> r.value > 0 && ParseInt(id) == Some(r.value as int)
  {
    var n := ParseInt(id);
    if n.Some? && n.value > 0 then Some(n.value) else None
  }

  /** `int(age)` as add computes it. */
  function AddAge(age: AgeInput): Option<int> {
    match age
    case IntAge(n) => Some(n)
    case TextAge(s) => ParseInt(s)
  }

  /** Add's age check: `int()` succeeds and the value lies in 0..120. */
  predicate IsAddAge(age: AgeInput) {
    var a := AddAge(age);
    a.Some? && 0 <= a.value <= 120
  }

  /** Update's age check: an `int` already, in 1..120. */
  predicate IsUpdateAge(age: AgeInput) {
    age.IntAge? && 1 <= age.n <= 120
  }

  /** The checks of add, in source order; the admission date is checked for its shape only. */
  function ValidateAdd(p: PatientInput): (r: Outcome)
    ensures r == Ok || r.Invalid?
    ensures r == Ok <==>
              && PatientNumber(p.patientId).Some?
              && IsPatientName(p.name)
              && IsAddAge(p.age)
              && IsGender(p.gender)
              && IsDateShape(p.admissionDate)
              && IsContact(p.contact)
    ensures r == Invalid(PatientId) <==> !IsPatientKey(p.patientId)
    ensures r == Invalid(Name) <==> IsPatientKey(p.patientId) && !IsPatientName(p.name)
    ensures r == Invalid(Age) <==> IsPatientKey(p.patientId) && IsPatientName(p.name) && !IsAddAge(p.age)
    ensures r == Invalid(Gender) <==>
              IsPatientKey(p.patientId) && IsPatientName(p.name) && IsAddAge(p.age) && !IsGender(p.gender)
    ensures r == Invalid(AdmissionDate) <==>
              IsPatientKey(p.patientId) && IsPatientName(p.name) && IsAddAge(p.age) && IsGender(p.gender) &&
              !IsDateShape(p.admissionDate)
    ensures r == Invalid(Contact) <==>
              IsPatientKey(p.patientId) && IsPatientName(p.name) && IsAddAge(p.age) && IsGender(p.gender) &&
              IsDateShape(p.admissionDate) && !IsContact(p.contact)
  {
    if PatientNumber(p.patientId).None? then Invalid(PatientId)
    else if !IsPatientName(p.name) then Invalid(Name)
    else if !IsAddAge(p.age) then Invalid(Age)
    else if !IsGender(p.gender) then Invalid(Gender)
    else if !IsDateShape(p.admissionDate) then Invalid(AdmissionDate)
    else if !IsContact(p.contact) then Invalid(Contact)
    else Ok
  }

  /** The checks of update, in source order; the admission date must be a real
      calendar date. */
  function ValidateUpdate(p: PatientInput): (r: Outcome)
    ensures r == Ok || r.Invalid?
    ensures r == Ok <==>
              && PatientNumber(p.patientId).Some?
              && IsPatientName(p.name)
              && IsUpdateAge(p.age)
              && IsGender(p.gender)
              && IsCalendarDate(p.admissionDate)
              && IsContact(p.contact)
    ensures r == Invalid(PatientId) <==> !IsPatientKey(p.patientId)
    ensures r == Invalid(Name) <==> IsPatientKey(p.patientId) && !IsPatientName(p.name)
    ensures r == Invalid(Age) <==> IsPatientKey(p.patientId) && IsPatientName(p.name) && !IsUpdateAge(p.age)
    ensures r == Invalid(Gender) <==>
              IsPatientKey(p.patientId) && IsPatientName(p.name) && IsUpdateAge(p.age) && !IsGender(p.gender)
    ensures r == Invalid(AdmissionDate) <==>
              IsPatientKey(p.patientId) && IsPatientName(p.name) && IsUpdateAge(p.age) && IsGender(p.gender) &&
              !IsCalendarDate(p.admissionDate)
    ensures r == Invalid(Contact) <==>
              IsPatientKey(p.patientId) && IsPatientName(p.name) && IsUpdateAge(p.age) && IsGender(p.gender) &&
              IsCalendarDate(p.admissionDate) && !IsContact(p.contact)
  {
    if PatientNumber(p.patientId).None? then Invalid(PatientId)
    else if !IsPatientName(p.name) then Invalid(Name)
    else if !IsUpdateAge(p.age) then Invalid(Age)
    else if !IsGender(p.gender) then Invalid(Gender)
    else if !IsCalendarDate(p.admissionDate) then Invalid(AdmissionDate)
    else if !IsContact(p.contact) then Invalid(Contact)
    else Ok
  }

  /** `Patient.add`: insert under the canonical decimal of the parsed ID, with
      the parsed age. */
  function Add(db: Db, p: PatientInput): (r: Step)
    ensures ValidateAdd(p) != Ok ==> r == Step(ValidateAdd(p), db)
    ensures r.outcome in {Ok, Duplicate} ==> ValidateAdd(p) == Ok
    ensures ValidateAdd(p) == Ok ==>
              var key := Decimal(PatientNumber(p.patientId).value);
              var row := PatientRow(p.name, AddAge(p.age).value, p.gender, p.admissionDate, p.contact);
              && (r.outcome == Ok <==> key !in db.patients)
              && (r.outcome == Ok ==> r.db == db.(patients := db.patients[key := row]))
              && (r.outcome == Duplicate <==> key in db.patients)
    ensures r.outcome != Ok ==> r.db == db
  {
    var v := ValidateAdd(p);
    if v != Ok then Step(v, db)
    else
      var key := Decimal(PatientNumber(p.patientId).value);
      if key in db.patients then Step(Duplicate, db)
      else Step(Ok, db.(patients := db.patients[key := PatientRow(p.name, AddAge(p.age).value, p.gender, p.admissionDate, p.contact)]))
  }

  /** `Patient.update`: rewrite every field of the row with that ID. Success is
      reported whether or not a row matched. */
  function Update(db: Db, p: PatientInput): (r: Step)
    ensures ValidateUpdate(p) != Ok ==> r == Step(ValidateUpdate(p), db)
    ensures r.outcome == Ok <==> ValidateUpdate(p) == Ok
    ensures r.outcome == Ok && p.patientId in db.patients ==>
              r.db == db.(patients := db.patients[p.patientId := PatientRow(p.name, p.age.n, p.gender, p.admissionDate, p.contact)])
    ensures p.patientId !in db.patients ==> r.db == db
  {
    var v := ValidateUpdate(p);
    if v != Ok then Step(v, db)
    else if p.patientId !in db.patients then Step(Ok, db)
    else Step(Ok, db.(patients := db.patients[p.patientId := PatientRow(p.name, p.age.n, p.gender, p.admissionDate, p.contact)]))
  }

  /** `Patient.delete`: no validation; the row with that ID, if any, is removed
      and success is reported either way. */
  function Delete(db: Db, patientId: string): (r: Step)
    ensures r.outcome == Ok
    ensures r.db == db.(patients := db.patients - {patientId})
    ensures patientId !in db.patients ==> r.db == db
  {
    Step(Ok, db.(patients := db.patients - {patientId}))
  }

  /** The stored key reads back, through `int()`, as the number the caller's ID
      stood for, and it is a valid alphanumeric ID for billing and appointments. */
  lemma {:induction false} AddStoresNumber(db: Db, p: PatientInput)
    requires Add(db, p).outcome == Ok
    ensures exists key :: key in Add(db, p).db.patients && key !in db.patients &&
                          ParseInt(key) == ParseInt(p.patientId) && IsAlnumId(key)
  {
    var n := PatientNumber(p.patientId).value;
    ParseDecimal(n);
    DecimalIsAlnumId(n);
    assert Decimal(n) in Add(db, p).db.patients;
  }

  /** An ID of more digits than `int()` converts is refused, leading zeros
      included, and nothing is stored. */
  lemma LongIdRefused(db: Db, p: PatientInput)
    requires |p.patientId| > MaxIntDigits
    requires forall i :: 0 <= i < |p.patientId| ==> IsDigit(p.patientId[i])
    ensures Add(db, p) == Step(Invalid(PatientId), db)
  {
    ParseDigits(p.patientId);
  }

  /** Age 0 passes add and fails update. */
  lemma AgeZero()
    ensures IsAddAge(IntAge(0)) && !IsUpdateAge(IntAge(0))
  {
  }

  /** A text age passes add when it reads as a number in range, but update
      only takes an `int`. */
  lemma TextAgeOnlyForAdd(s: string)
    ensures !IsUpdateAge(TextAge(s))
    ensures IsAddAge(TextAge(s)) <==> ParseInt(s).Some? && 0 <= ParseInt(s).value <= 120
  {
  }

  /** Every age update accepts, add accepts too. */
  lemma UpdateAgeIsAddAge(age: AgeInput)
    requires IsUpdateAge(age)
    ensures IsAddAge(age)
  {
  }

  /** Add checks only the shape of the admission date: February 30th passes
      add and fails update. */
  lemma ShapeIsNotCalendar()
    ensures IsDateShape("2023-02-30") && !IsCalendarDate("2023-02-30")
  {
    var s := "2023-02-30";
    assert IsDateShape(s) && Month(s) == 2 && Day(s) == 30;
  }

  /** A name of spaces alone is refused. */
  lemma BlankName(s: string)
    requires forall i :: 0 <= i < |s| ==> s[i] == ' '
    ensures !IsPatientName(s)
  {
    PatientNameChars(s);
  }

  lemma AddKeepsConsistent(db: Db, p: PatientInput)
    requires Consistent(db)
    ensures Consistent(Add(db, p).db)
  {
    if Add(db, p).outcome == Ok {
      var n := PatientNumber(p.patientId).value;
      ParseDecimal(n);
      assert IsPatientKey(Decimal(n));
      var row := PatientRow(p.name, AddAge(p.age).value, p.gender, p.admissionDate, p.contact);
      assert IsPatientRow(row);
      PatientsWrite(db.patients, Decimal(n), row);
    }
  }

  lemma UpdateKeepsConsistent(db: Db, p: PatientInput)
    requires Consistent(db)
    ensures Consistent(Update(db, p).db)
  {
    if Update(db, p).outcome == Ok && p.patientId in db.patients {
      var row := PatientRow(p.name, p.age.n, p.gender, p.admissionDate, p.contact);
      assert IsPatientRow(row);
      PatientsWrite(db.patients, p.patientId, row);
    }
  }

  lemma DeleteKeepsConsistent(db: Db, patientId: string)
    requires Consistent(db)
    ensures Consistent(Delete(db, patientId).db)
  {
  }
}
