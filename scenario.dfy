/**
 * Worked runs of the tool, from an empty database: register a patient, stage
 * three services, bill them.
 */
module Scenarios {
  import opened Options
  import opened Text
  import opened Ledger
  import opened Store
  import Services
  import Billing
  import Patients

  const Ann := Patients.PatientInput("1", "Ann Lee", Patients.IntAge(30), "F", "2024-01-10", "0123456789")
  const XRay := Services.ServiceInput("S1", "X-ray", Some(100.0))
  const BloodTest := Services.ServiceInput("S2", "Blood test", Some(250.5))
  const Consult := Services.ServiceInput("S3", "Consult_1", Some(49.5))
  const BillDay := "2024-01-15"

  lemma AnnNamed()
    ensures IsPatientName("Ann Lee")
  {
    PatientNameChars("Ann Lee");
    assert IsLetter("Ann Lee"[0]);
  }

  lemma AnnContactAndDate()
    ensures IsContact("0123456789") && IsDateShape("2024-01-10")
  {
  }

  lemma AnnValid()
    ensures Patients.ValidateAdd(Ann) == Ok && Patients.PatientNumber("1") == Some(1)
  {
    assert Patients.PatientNumber("1") == Some(1) by {
      ParseDecimal(1);
    }
    AnnNamed();
    AnnContactAndDate();
  }

  lemma ServicesValid()
    ensures Services.Validate(XRay) == Ok && Services.Validate(BloodTest) == Ok && Services.Validate(Consult) == Ok
  {
  }

  lemma BillValid()
    ensures Billing.Validate("B1", "1", BillDay) == Ok
  {
  }

  /** Registering Ann stores her under key "1". */
  lemma Registered()
    ensures Patients.Add(Empty, Ann) == Step(Ok, Empty.(patients := map["1" := PatientRow("Ann Lee", 30, "F", "2024-01-10", "0123456789")]))
  {
    AnnValid();
  }

  /** Staging the three services appends three entries for patient 1, whose
      costs add up to 400.0. */
  lemma Staged(db: Db)
    requires db.usage == []
    ensures
      var db4 := Services.Attribute(Services.Attribute(Services.Attribute(db, "1", XRay).db, "1", BloodTest).db, "1", Consult).db;
      && db4 == db.(usage := [UsageEntry("1", "S1", "X-ray", 100.0), UsageEntry("1", "S2", "Blood test", 250.5), UsageEntry("1", "S3", "Consult_1", 49.5)])
      && Total(ForPatient(db4.usage, "1")) == 400.0
  {
    ServicesValid();
    var db2 := Services.Attribute(db, "1", XRay).db;
    var db3 := Services.Attribute(db2, "1", BloodTest).db;
    var db4 := Services.Attribute(db3, "1", Consult).db;
    assert Total(ForPatient(db2.usage, "1")) == 100.0;
    assert Total(ForPatient(db3.usage, "1")) == 350.5;
  }

  /** Three services of costs 100.0, 250.5 and 49.5 staged for patient 1 bill
      to 400.0, and nothing stays staged for that patient. */
  lemma BillThreeServices()
    ensures
      var db1 := Patients.Add(Empty, Ann).db;
      var db4 := Services.Attribute(Services.Attribute(Services.Attribute(db1, "1", XRay).db, "1", BloodTest).db, "1", Consult).db;
      var r := Billing.Add(db4, "B1", "1", None, BillDay);
      && r.outcome == Ok
      && r.db.bills == map["B1" := BillRow("1", 400.0, BillDay)]
      && ForPatient(r.db.usage, "1") == []
  {
    Registered();
    var db1 := Patients.Add(Empty, Ann).db;
    Staged(db1);
    BillValid();
  }

  /** A bill ID with a hyphen is refused before any table is read. */
  lemma HyphenatedBillId(db: Db, patientId: string, given: Option<string>, today: string)
    ensures Billing.Add(db, "bill-1", patientId, given, today) == Step(Invalid(BillId), db)
    ensures Billing.Update(db, "bill-1", patientId, given, today) == Step(Invalid(BillId), db)
    ensures Billing.Delete(db, "bill-1") == Step(Invalid(BillId), db)
  {
    assert !IsAlnumId("bill-1") by {
      assert "bill-1"[4] == '-';
    }
  }
}
