/**
 * Appointments (`Appointment.add/update/delete`): field validation, then the
 * patient and the doctor are looked up, in that order, before the row is
 * written.
 */
module Appointments {
  import opened Text
  import opened Store

  datatype AppointmentInput = AppointmentInput(apptId: string, patientId: string, doctorId: string, date: string, diagnosis: string)

  /** The checks of add and update, in source order: the three IDs, the date,
      the diagnosis. */
  function Validate(a: AppointmentInput): (r: Outcome)
    ensures r == Ok || r.Invalid?
    ensures r == Ok <==>
              IsAlnumId(a.apptId) && IsAlnumId(a.patientId) && IsAlnumId(a.doctorId) &&
              IsCalendarDate(a.date) && IsLettersOrSpaces(a.diagnosis)
    ensures r == Invalid(ApptId) <==> !IsAlnumId(a.apptId)
    ensures r == Invalid(PatientId) <==> IsAlnumId(a.apptId) && !IsAlnumId(a.patientId)
    ensures r == Invalid(DoctorId) <==> IsAlnumId(a.apptId) && IsAlnumId(a.patientId) && !IsAlnumId(a.doctorId)
    ensures r == Invalid(Date) <==>
              IsAlnumId(a.apptId) && IsAlnumId(a.patientId) && IsAlnumId(a.doctorId) && !IsCalendarDate(a.date)
    ensures r == Invalid(Diagnosis) <==>
              IsAlnumId(a.apptId) && IsAlnumId(a.patientId) && IsAlnumId(a.doctorId) && IsCalendarDate(a.date) &&
              !IsLettersOrSpaces(a.diagnosis)
  {
    if !IsAlnumId(a.apptId) then Invalid(ApptId)
    else if !IsAlnumId(a.patientId) then Invalid(PatientId)
    else if !IsAlnumId(a.doctorId) then Invalid(DoctorId)
    else if !IsCalendarDate(a.date) then Invalid(Date)
    else if !IsLettersOrSpaces(a.diagnosis) then Invalid(Diagnosis)
    else Ok
  }

  /** The referential checks of add and update: the patient first, then the doctor. */
  function References(db: Db, a: AppointmentInput): (r: Outcome)
    ensures r == Ok <==> a.patientId in db.patients && a.doctorId in db.doctors
    ensures r == PatientMissing <==> a.patientId !in db.patients
    ensures r == DoctorMissing <==> a.patientId in db.patients && a.doctorId !in db.doctors
  {
    if a.patientId !in db.patients then PatientMissing
    else if a.doctorId !in db.doctors then DoctorMissing
    else Ok
  }

  function Row(a: AppointmentInput): AppointmentRow {
    AppointmentRow(a.patientId, a.doctorId, a.date, a.diagnosis)
  }

  /** `Appointment.add`. */
  function Add(db: Db, a: AppointmentInput): (r: Step)
    ensures Validate(a) != Ok ==> r == Step(Validate(a), db)
    ensures Validate(a) == Ok && References(db, a) != Ok ==> r == Step(References(db, a), db)
    ensures r.outcome == Ok <==>
              Validate(a) == Ok && a.patientId in db.patients && a.doctorId in db.doctors && a.apptId !in db.appointments
    ensures r.outcome == Duplicate <==>
              Validate(a) == Ok && References(db, a) == Ok && a.apptId in db.appointments
    ensures r.outcome == Ok ==> r.db == db.(appointments := db.appointments[a.apptId := Row(a)])
    ensures r.outcome != Ok ==> r.db == db
  {
    var v := Validate(a);
    if v != Ok then Step(v, db)
    else
      var refs := References(db, a);
      if refs != Ok then Step(refs, db)
      else if a.apptId in db.appointments then Step(Duplicate, db)
      else Step(Ok, db.(appointments := db.appointments[a.apptId := Row(a)]))
  }

  /** `Appointment.update`: rewrite patient, doctor, date and diagnosis of the
      row keyed by the appointment ID. */
  function Update(db: Db, a: AppointmentInput): (r: Step)
    ensures Validate(a) != Ok ==> r == Step(Validate(a), db)
    ensures Validate(a) == Ok && References(db, a) != Ok ==> r == Step(References(db, a), db)
    ensures r.outcome == Ok <==>
              Validate(a) == Ok && a.patientId in db.patients && a.doctorId in db.doctors && a.apptId in db.appointments
    ensures r.outcome == NotFound <==>
              Validate(a) == Ok && References(db, a) == Ok && a.apptId !in db.appointments
    ensures r.outcome == Ok ==> r.db == db.(appointments := db.appointments[a.apptId := Row(a)])
    ensures r.outcome != Ok ==> r.db == db
  {
    var v := Validate(a);
    if v != Ok then Step(v, db)
    else
      var refs := References(db, a);
      if refs != Ok then Step(refs, db)
      else if a.apptId !in db.appointments then Step(NotFound, db)
      else Step(Ok, db.(appointments := db.appointments[a.apptId := Row(a)]))
  }

  /** `Appointment.delete`: remove only the row with that ID. */
  function Delete(db: Db, apptId: string): (r: Step)
    ensures !IsAlnumId(apptId) ==> r == Step(Invalid(ApptId), db)
    ensures r.outcome == Ok <==> IsAlnumId(apptId) && apptId in db.appointments
    ensures r.outcome == NotFound <==> IsAlnumId(apptId) && apptId !in db.appointments
    ensures r.outcome == Ok ==> r.db == db.(appointments := db.appointments - {apptId})
    ensures r.outcome != Ok ==> r.db == db
  {
    if !IsAlnumId(apptId) then Step(Invalid(ApptId), db)
    else if apptId !in db.appointments then Step(NotFound, db)
    else Step(Ok, db.(appointments := db.appointments - {apptId}))
  }

  /** A stored appointment names a patient and a doctor that existed when it
      was written. */
  lemma WrittenRowsReferToExisting(db: Db, a: AppointmentInput)
    ensures Add(db, a).outcome == Ok ==> a.patientId in db.patients && a.doctorId in db.doctors
    ensures Update(db, a).outcome == Ok ==> a.patientId in db.patients && a.doctorId in db.doctors
  {
  }

  lemma AddKeepsConsistent(db: Db, a: AppointmentInput)
    requires Consistent(db)
    ensures Consistent(Add(db, a).db)
  {
    if Add(db, a).outcome == Ok {
      assert Validate(a) == Ok;
      AppointmentsWrite(db.appointments, a.apptId, Row(a));
    }
  }

  lemma UpdateKeepsConsistent(db: Db, a: AppointmentInput)
    requires Consistent(db)
    ensures Consistent(Update(db, a).db)
  {
    if Update(db, a).outcome == Ok {
      assert Validate(a) == Ok;
      AppointmentsWrite(db.appointments, a.apptId, Row(a));
    }
  }

  lemma DeleteKeepsConsistent(db: Db, apptId: string)
    requires Consistent(db)
    ensures Consistent(Delete(db, apptId).db)
  {
  }
}
