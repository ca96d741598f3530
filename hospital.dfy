/**
 * The database as the tool uses it: one object whose tables every operation
 * reads and rewrites in place, one statement after another. Each method is
 * proved to end in the state, and to report the outcome, that the matching
 * function of the Services, Billing, Appointments, Patients or Doctors module
 * specifies, and to keep the store consistent.
 */
module Hospital {
  import opened Options
  import opened Text
  import opened Ledger
  import opened Store
  import Services
  import Billing
  import Appointments
  import Patients
  import Doctors

  class Database {
    var patients: map<string, PatientRow>
    var doctors: map<string, DoctorRow>
    var appointments: map<string, AppointmentRow>
    var services: map<string, ServiceRow>
    var bills: map<string, BillRow>
    var usage: seq<UsageEntry>

    /** The tables as one value. */
    function Snapshot(): Db
      reads this
    {
      Db(patients, doctors, appointments, services, bills, usage)
    }

    ghost predicate Valid()
      reads this
    {
      Consistent(Snapshot())
    }

    constructor ()
      ensures Valid() && Snapshot() == Empty
    {
      patients, doctors, appointments, services, bills, usage := map[], map[], map[], map[], map[], [];
    }

    // ------------------------------------------------------------ services

    method AddService(s: Services.ServiceInput) returns (outcome: Outcome)
      requires Valid()
      modifies this
      ensures Valid()
      ensures Step(outcome, Snapshot()) == Services.Add(old(Snapshot()), s)
    {
      outcome := Services.Validate(s);
      if outcome != Ok { return; }
      if s.id in services {
        outcome := Duplicate;
        return;
      }
      services := services[s.id := ServiceRow(s.name, s.cost.value)];
      Services.AddKeepsConsistent(old(Snapshot()), s);
    }

    method UpdateService(s: Services.ServiceInput) returns (outcome: Outcome)
      requires Valid()
      modifies this
      ensures Valid()
      ensures Step(outcome, Snapshot()) == Services.Update(old(Snapshot()), s)
    {
      outcome := Services.Validate(s);
      if outcome != Ok { return; }
      if s.id !in services {
        outcome := NotFound;
        return;
      }
      services := services[s.id := ServiceRow(s.name, s.cost.value)];
      Services.UpdateKeepsConsistent(old(Snapshot()), s);
    }

    method DeleteService(id: string) returns (outcome: Outcome)
      requires Valid()
      modifies this
      ensures Valid()
      ensures Step(outcome, Snapshot()) == Services.Delete(old(Snapshot()), id)
    {
      if !IsAlnumId(id) {
        outcome := Invalid(ServiceId);
        return;
      }
      if id !in services {
        outcome := NotFound;
        return;
      }
      services := services - {id};
      outcome := Ok;
      Services.DeleteKeepsConsistent(old(Snapshot()), id);
    }

    method AttributeService(patientId: string, s: Services.ServiceInput) returns (outcome: Outcome)
      requires Valid()
      modifies this
      ensures Valid()
      ensures Step(outcome, Snapshot()) == Services.Attribute(old(Snapshot()), patientId, s)
    {
      if !IsAlnumId(patientId) {
        outcome := Invalid(PatientId);
        return;
      }
      outcome := Services.Validate(s);
      if outcome != Ok { return; }
      usage := usage + [UsageEntry(patientId, s.id, s.name, s.cost.value)];
      Services.AttributeKeepsConsistent(old(Snapshot()), patientId, s);
    }

    /** The staged entries of one patient; nothing changes. */
    method ServicesForPatient(patientId: string) returns (rows: seq<UsageEntry>)
      ensures rows == ForPatient(usage, patientId)
      ensures forall e :: e in rows <==> e in usage && e.patientId == patientId
    {
      rows := ForPatient(usage, patientId);
    }

    method ClearServicesForPatient(patientId: string)
      modifies this
      ensures Snapshot() == Services.Clear(old(Snapshot()), patientId).db
      ensures old(Valid()) ==> Valid()
    {
      usage := WithoutPatient(usage, patientId);
      if old(Valid()) {
        Services.ClearKeepsConsistent(old(Snapshot()), patientId);
      }
    }

    // ------------------------------------------------------------- billing

    method AddBill(billId: string, patientId: string, billingDate: Option<string>, today: string) returns (outcome: Outcome)
      requires Valid()
      modifies this
      ensures Valid()
      ensures Step(outcome, Snapshot()) == Billing.Add(old(Snapshot()), billId, patientId, billingDate, today)
    {
      var date := Billing.DateOrToday(billingDate, today);
      outcome := Billing.Validate(billId, patientId, date);
      if outcome != Ok { return; }
      var charges := ServicesForPatient(patientId);
      if charges == [] {
        outcome := NoServices;
        return;
      }
      var total := Total(charges);
      if patientId !in patients {
        outcome := PatientMissing;
        return;
      }
      if billId in bills {
        outcome := Duplicate;
      } else {
        bills := bills[billId := BillRow(patientId, total, date)];
      }
      ClearServicesForPatient(patientId);
      Billing.AddKeepsConsistent(old(Snapshot()), billId, patientId, billingDate, today);
    }

    method UpdateBill(billId: string, patientId: string, billingDate: Option<string>, today: string) returns (outcome: Outcome)
      requires Valid()
      modifies this
      ensures Valid()
      ensures Step(outcome, Snapshot()) == Billing.Update(old(Snapshot()), billId, patientId, billingDate, today)
    {
      var date := Billing.DateOrToday(billingDate, today);
      outcome := Billing.Validate(billId, patientId, date);
      if outcome != Ok { return; }
      var charges := ServicesForPatient(patientId);
      if charges == [] {
        outcome := NoServices;
        return;
      }
      var total := Total(charges);
      if patientId !in patients {
        outcome := PatientMissing;
        return;
      }
      if billId !in bills {
        outcome := NotFound;
      } else {
        bills := bills[billId := BillRow(patientId, total, date)];
      }
      ClearServicesForPatient(patientId);
      Billing.UpdateKeepsConsistent(old(Snapshot()), billId, patientId, billingDate, today);
    }

    method DeleteBill(billId: string) returns (outcome: Outcome)
      requires Valid()
      modifies this
      ensures Valid()
      ensures Step(outcome, Snapshot()) == Billing.Delete(old(Snapshot()), billId)
    {
      if !IsAlnumId(billId) {
        outcome := Invalid(BillId);
        return;
      }
      if billId !in bills {
        outcome := NotFound;
        return;
      }
      bills := bills - {billId};
      outcome := Ok;
      Billing.DeleteKeepsConsistent(old(Snapshot()), billId);
    }

    // -------------------------------------------------------- appointments

    method AddAppointment(a: Appointments.AppointmentInput) returns (outcome: Outcome)
      requires Valid()
      modifies this
      ensures Valid()
      ensures Step(outcome, Snapshot()) == Appointments.Add(old(Snapshot()), a)
    {
      outcome := Appointments.Validate(a);
      if outcome != Ok { return; }
      if a.patientId !in patients {
        outcome := PatientMissing;
        return;
      }
      if a.doctorId !in doctors {
        outcome := DoctorMissing;
        return;
      }
      if a.apptId in appointments {
        outcome := Duplicate;
        return;
      }
      appointments := appointments[a.apptId := Appointments.Row(a)];
      Appointments.AddKeepsConsistent(old(Snapshot()), a);
    }

    method UpdateAppointment(a: Appointments.AppointmentInput) returns (outcome: Outcome)
      requires Valid()
      modifies this
      ensures Valid()
      ensures Step(outcome, Snapshot()) == Appointments.Update(old(Snapshot()), a)
    {
      outcome := Appointments.Validate(a);
      if outcome != Ok { return; }
      if a.patientId !in patients {
        outcome := PatientMissing;
        return;
      }
      if a.doctorId !in doctors {
        outcome := DoctorMissing;
        return;
      }
      if a.apptId !in appointments {
        outcome := NotFound;
        return;
      }
      appointments := appointments[a.apptId := Appointments.Row(a)];
      Appointments.UpdateKeepsConsistent(old(Snapshot()), a);
    }

    method DeleteAppointment(apptId: string) returns (outcome: Outcome)
      requires Valid()
      modifies this
      ensures Valid()
      ensures Step(outcome, Snapshot()) == Appointments.Delete(old(Snapshot()), apptId)
    {
      if !IsAlnumId(apptId) {
        outcome := Invalid(ApptId);
        return;
      }
      if apptId !in appointments {
        outcome := NotFound;
        return;
      }
      appointments := appointments - {apptId};
      outcome := Ok;
      Appointments.DeleteKeepsConsistent(old(Snapshot()), apptId);
    }

    // ------------------------------------------------------------ patients

    method AddPatient(p: Patients.PatientInput) returns (outcome: Outcome)
      requires Valid()
      modifies this
      ensures Valid()
      ensures Step(outcome, Snapshot()) == Patients.Add(old(Snapshot()), p)
    {
      outcome := Patients.ValidateAdd(p);
      if outcome != Ok { return; }
      var key := Decimal(Patients.PatientNumber(p.patientId).value);
      if key in patients {
        outcome := Duplicate;
        return;
      }
      patients := patients[key := PatientRow(p.name, Patients.AddAge(p.age).value, p.gender, p.admissionDate, p.contact)];
      Patients.AddKeepsConsistent(old(Snapshot()), p);
    }

    method UpdatePatient(p: Patients.PatientInput) returns (outcome: Outcome)
      requires Valid()
      modifies this
      ensures Valid()
      ensures Step(outcome, Snapshot()) == Patients.Update(old(Snapshot()), p)
    {
      outcome := Patients.ValidateUpdate(p);
      if outcome != Ok { return; }
      if p.patientId in patients {
        patients := patients[p.patientId := PatientRow(p.name, p.age.n, p.gender, p.admissionDate, p.contact)];
      }
      Patients.UpdateKeepsConsistent(old(Snapshot()), p);
    }

    method DeletePatient(patientId: string) returns (outcome: Outcome)
      requires Valid()
      modifies this
      ensures Valid()
      ensures Step(outcome, Snapshot()) == Patients.Delete(old(Snapshot()), patientId)
    {
      patients := patients - {patientId};
      outcome := Ok;
      Patients.DeleteKeepsConsistent(old(Snapshot()), patientId);
    }

    // ------------------------------------------------------------- doctors

    method AddDoctor(d: Doctors.DoctorInput) returns (outcome: Outcome)
      requires Valid()
      modifies this
      ensures Valid()
      ensures Step(outcome, Snapshot()) == Doctors.Add(old(Snapshot()), d)
    {
      outcome := Doctors.Validate(d);
      if outcome != Ok { return; }
      if d.doctorId in doctors {
        outcome := Duplicate;
        return;
      }
      doctors := doctors[d.doctorId := Doctors.Row(d)];
      Doctors.AddKeepsConsistent(old(Snapshot()), d);
    }

    method UpdateDoctor(d: Doctors.DoctorInput) returns (outcome: Outcome)
      requires Valid()
      modifies this
      ensures Valid()
      ensures Step(outcome, Snapshot()) == Doctors.Update(old(Snapshot()), d)
    {
      outcome := Doctors.Validate(d);
      if outcome != Ok { return; }
      if d.doctorId !in doctors {
        outcome := NotFound;
        return;
      }
      doctors := doctors[d.doctorId := Doctors.Row(d)];
      Doctors.UpdateKeepsConsistent(old(Snapshot()), d);
    }

    method DeleteDoctor(doctorId: string) returns (outcome: Outcome)
      requires Valid()
      modifies this
      ensures Valid()
      ensures Step(outcome, Snapshot()) == Doctors.Delete(old(Snapshot()), doctorId)
    {
      if !IsDoctorId(doctorId) {
        outcome := Invalid(DoctorId);
        return;
      }
      if doctorId !in doctors {
        outcome := NotFound;
        return;
      }
      doctors := doctors - {doctorId};
      outcome := Ok;
      Doctors.DeleteKeepsConsistent(old(Snapshot()), doctorId);
    }
  }
}
