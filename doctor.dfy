/**
 * Doctors (`Doctor.add/update/delete`). A doctor ID is alphanumeric and must
 * hold at least one letter; names and specializations are letters and
 * whitespace.
 */
module Doctors {
  import opened Text
  import opened Store

  datatype DoctorInput = DoctorInput(doctorId: string, name: string, specialization: string, contact: string)

  /** The checks of add and update, in source order. */
  function Validate(d: DoctorInput): (r: Outcome)
    ensures r == Ok || r.Invalid?
    ensures r == Ok <==>
              IsDoctorId(d.doctorId) && IsLettersOrSpaces(d.name) && IsLettersOrSpaces(d.specialization) && IsContact(d.contact)
    ensures r == Invalid(DoctorId) <==> !IsDoctorId(d.doctorId)
    ensures r == Invalid(Name) <==> IsDoctorId(d.doctorId) && !IsLettersOrSpaces(d.name)
    ensures r == Invalid(Specialization) <==>
              IsDoctorId(d.doctorId) && IsLettersOrSpaces(d.name) && !IsLettersOrSpaces(d.specialization)
    ensures r == Invalid(Contact) <==>
              IsDoctorId(d.doctorId) && IsLettersOrSpaces(d.name) && IsLettersOrSpaces(d.specialization) && !IsContact(d.contact)
  {
    if !IsDoctorId(d.doctorId) then Invalid(DoctorId)
    else if !IsLettersOrSpaces(d.name) then Invalid(Name)
    else if !IsLettersOrSpaces(d.specialization) then Invalid(Specialization)
    else if !IsContact(d.contact) then Invalid(Contact)
    else Ok
  }

  function Row(d: DoctorInput): DoctorRow {
    DoctorRow(d.name, d.specialization, d.contact)
  }

  /** `Doctor.add`. */
  function Add(db: Db, d: DoctorInput): (r: Step)
    ensures Validate(d) != Ok ==> r == Step(Validate(d), db)
    ensures r.outcome == Ok <==> Validate(d) == Ok && d.doctorId !in db.doctors
    ensures r.outcome == Duplicate <==> Validate(d) == Ok && d.doctorId in db.doctors
    ensures r.outcome == Ok ==> r.db == db.(doctors := db.doctors[d.doctorId := Row(d)])
    ensures r.outcome != Ok ==> r.db == db
  {
    var v := Validate(d);
    if v != Ok then Step(v, db)
    else if d.doctorId in db.doctors then Step(Duplicate, db)
    else Step(Ok, db.(doctors := db.doctors[d.doctorId := Row(d)]))
  }

  /** `Doctor.update`: rewrite name, specialization and contact of the row with that ID. */
  function Update(db: Db, d: DoctorInput): (r: Step)
    ensures Validate(d) != Ok ==> r == Step(Validate(d), db)
    ensures r.outcome == Ok <==> Validate(d) == Ok && d.doctorId in db.doctors
    ensures r.outcome == NotFound <==> Validate(d) == Ok && d.doctorId !in db.doctors
    ensures r.outcome == Ok ==> r.db == db.(doctors := db.doctors[d.doctorId := Row(d)])
    ensures r.outcome != Ok ==> r.db == db
  {
    var v := Validate(d);
    if v != Ok then Step(v, db)
    else if d.doctorId !in db.doctors then Step(NotFound, db)
    else Step(Ok, db.(doctors := db.doctors[d.doctorId := Row(d)]))
  }

  /** `Doctor.delete`: remove only the row with that ID. */
  function Delete(db: Db, doctorId: string): (r: Step)
    ensures !IsDoctorId(doctorId) ==> r == Step(Invalid(DoctorId), db)
    ensures r.outcome == Ok <==> IsDoctorId(doctorId) && doctorId in db.doctors
    ensures r.outcome == NotFound <==> IsDoctorId(doctorId) && doctorId !in db.doctors
    ensures r.outcome == Ok ==> r.db == db.(doctors := db.doctors - {doctorId})
    ensures r.outcome != Ok ==> r.db == db
  {
    if !IsDoctorId(doctorId) then Step(Invalid(DoctorId), db)
    else if doctorId !in db.doctors then Step(NotFound, db)
    else Step(Ok, db.(doctors := db.doctors - {doctorId}))
  }

  /** An ID of digits only, such as a patient number, is never a doctor ID. */
  lemma DigitsAreNoDoctorId(s: string)
    requires forall i :: 0 <= i < |s| ==> IsDigit(s[i])
    ensures !IsDoctorId(s)
  {
  }

  /** Unlike a patient's name, a doctor's name may be whitespace only. */
  lemma BlankDoctorName()
    ensures IsLettersOrSpaces("  ") && !IsPatientName("  ")
  {
    PatientNameChars("  ");
  }

  lemma AddKeepsConsistent(db: Db, d: DoctorInput)
    requires Consistent(db)
    ensures Consistent(Add(db, d).db)
  {
  }

  lemma UpdateKeepsConsistent(db: Db, d: DoctorInput)
    requires Consistent(db)
    ensures Consistent(Update(db, d).db)
  {
  }

  lemma DeleteKeepsConsistent(db: Db, doctorId: string)
    requires Consistent(db)
    ensures Consistent(Delete(db, doctorId).db)
  {
  }
}
