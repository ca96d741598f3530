/**
 * The database the tool works against, as one value: a map per keyed table and
 * the usage ledger as a sequence. Every operation of the tool reports one
 * `Outcome` where the source prints a message.
 */
module Store {
  import opened Text
  import opened Ledger

  /** The input field a validator refused. */
  datatype Field =
    | BillId | PatientId | BillingDate
    | ServiceId | ServiceName | Cost
    | ApptId | DoctorId | Date | Diagnosis
    | Name | Age | Gender | AdmissionDate | Contact | Specialization

  datatype Outcome =
    | Ok
    | Invalid(field: Field)  // a field failed validation; nothing was read or written
    | NotFound               // an update or delete matched no row
    | NoServices             // billing found no staged usage for the patient
    | PatientMissing         // the referenced patient does not exist
    | DoctorMissing          // the referenced doctor does not exist
    | Duplicate              // an insert hit an existing key

  datatype PatientRow = PatientRow(name: string, age: int, gender: string, admissionDate: string, contact: string)
  datatype DoctorRow = DoctorRow(name: string, specialization: string, contact: string)
  datatype AppointmentRow = AppointmentRow(patientId: string, doctorId: string, date: string, diagnosis: string)
  datatype ServiceRow = ServiceRow(name: string, cost: real)
  datatype BillRow = BillRow(patientId: string, total: real, date: string)

  datatype Db = Db(
    patients: map<string, PatientRow>,
    doctors: map<string, DoctorRow>,
    appointments: map<string, AppointmentRow>,
    services: map<string, ServiceRow>,
    bills: map<string, BillRow>,
    usage: seq<UsageEntry>)

  /** What an operation reports, and the database after it. */
  datatype Step = Step(outcome: Outcome, db: Db)

  const Empty: Db := Db(map[], map[], map[], map[], map[], [])

  /** A patient key: `int()` reads it as a positive number. */
  predicate IsPatientKey(s: string) {
    var n := ParseInt(s);
    n.Some? && n.value > 0
  }

  predicate IsPatientRow(r: PatientRow) {
    IsPatientName(r.name) && 0 <= r.age <= 120 && IsGender(r.gender) && IsDateShape(r.admissionDate) && IsContact(r.contact)
  }

  predicate IsDoctorRow(r: DoctorRow) {
    IsLettersOrSpaces(r.name) && IsLettersOrSpaces(r.specialization) && IsContact(r.contact)
  }

  predicate IsAppointmentRow(r: AppointmentRow) {
    IsAlnumId(r.patientId) && IsAlnumId(r.doctorId) && IsCalendarDate(r.date) && IsLettersOrSpaces(r.diagnosis)
  }

  predicate IsServiceRow(r: ServiceRow) {
    IsServiceName(r.name) && IsCost(r.cost)
  }

  predicate IsBillRow(r: BillRow) {
    IsAlnumId(r.patientId) && 0.0 <= r.total && IsCalendarDate(r.date)
  }

  ghost predicate PatientsOk(m: map<string, PatientRow>) {
    forall k :: k in m ==> IsPatientKey(k) && IsPatientRow(m[k])
  }

  ghost predicate DoctorsOk(m: map<string, DoctorRow>) {
    forall k :: k in m ==> IsDoctorId(k) && IsDoctorRow(m[k])
  }

  ghost predicate AppointmentsOk(m: map<string, AppointmentRow>) {
    forall k :: k in m ==> IsAlnumId(k) && IsAppointmentRow(m[k])
  }

  ghost predicate ServicesOk(m: map<string, ServiceRow>) {
    forall k :: k in m ==> IsAlnumId(k) && IsServiceRow(m[k])
  }

  ghost predicate BillsOk(m: map<string, BillRow>) {
    forall k :: k in m ==> IsAlnumId(k) && IsBillRow(m[k])
  }

  ghost predicate UsageOk(usage: seq<UsageEntry>) {
    forall i :: 0 <= i < |usage| ==> IsWellFormed(usage[i])
  }

  /** Every stored row and ledger entry is one the validators admit, and every
      bill total is non-negative. The operations of the tool keep this. */
  ghost predicate Consistent(db: Db) {
    && PatientsOk(db.patients)
    && DoctorsOk(db.doctors)
    && AppointmentsOk(db.appointments)
    && ServicesOk(db.services)
    && BillsOk(db.bills)
    && UsageOk(db.usage)
  }

  /** Writing a valid row under a valid key keeps a table valid. */
  lemma PatientsWrite(m: map<string, PatientRow>, k: string, r: PatientRow)
    requires PatientsOk(m) && IsPatientKey(k) && IsPatientRow(r)
    ensures PatientsOk(m[k := r])
  {
  }

  lemma AppointmentsWrite(m: map<string, AppointmentRow>, k: string, r: AppointmentRow)
    requires AppointmentsOk(m) && IsAlnumId(k) && IsAppointmentRow(r)
    ensures AppointmentsOk(m[k := r])
  {
  }
}
