/**
 * The service catalog (`Service.add/update/delete`) and the usage ledger
 * operations (`ServiceUsageDB`): attributing a service to a patient, and
 * clearing a patient's staged usage.
 */
module Services {
  import opened Options
  import opened Text
  import opened Ledger
  import opened Store

  /** A `Service` object as the caller builds it. `cost` is `None` when
      `float()` of the given cost raises. */
  datatype ServiceInput = ServiceInput(id: string, name: string, cost: Option<real>)

  /** The service checks, in source order: ID, name, then cost (parsed, then in range). */
  function Validate(s: ServiceInput): (r: Outcome)
    ensures r == Ok || r.Invalid?
    ensures r == Ok <==> IsAlnumId(s.id) && IsServiceName(s.name) && s.cost.Some? && IsCost(s.cost.value)
    ensures r == Invalid(ServiceId) <==> !IsAlnumId(s.id)
    ensures r == Invalid(ServiceName) <==> IsAlnumId(s.id) && !IsServiceName(s.name)
    ensures r == Invalid(Cost) <==> IsAlnumId(s.id) && IsServiceName(s.name) && (s.cost.None? || !IsCost(s.cost.value))
  {
    if !IsAlnumId(s.id) then Invalid(ServiceId)
    else if !IsServiceName(s.name) then Invalid(ServiceName)
    else if s.cost.None? || !IsCost(s.cost.value) then Invalid(Cost)
    else Ok
  }

  /** `Service.add`: insert a catalog row; an existing ID is a duplicate. */
  function Add(db: Db, s: ServiceInput): (r: Step)
    ensures Validate(s) != Ok ==> r == Step(Validate(s), db)
    ensures r.outcome == Ok <==> Validate(s) == Ok && s.id !in db.services
    ensures r.outcome == Duplicate <==> Validate(s) == Ok && s.id in db.services
    ensures r.outcome == Ok ==> r.db == db.(services := db.services[s.id := ServiceRow(s.name, s.cost.value)])
    ensures r.outcome != Ok ==> r.db == db
  {
    var v := Validate(s);
    if v != Ok then Step(v, db)
    else if s.id in db.services then Step(Duplicate, db)
    else Step(Ok, db.(services := db.services[s.id := ServiceRow(s.name, s.cost.value)]))
  }

  /** `Service.update`: rewrite name and cost of the row with that ID. The
      ledger keeps the costs it snapshotted. */
  function Update(db: Db, s: ServiceInput): (r: Step)
    ensures Validate(s) != Ok ==> r == Step(Validate(s), db)
    ensures r.outcome == Ok <==> Validate(s) == Ok && s.id in db.services
    ensures r.outcome == NotFound <==> Validate(s) == Ok && s.id !in db.services
    ensures r.outcome == Ok ==> r.db == db.(services := db.services[s.id := ServiceRow(s.name, s.cost.value)])
    ensures r.outcome != Ok ==> r.db == db
    ensures r.db.usage == db.usage
  {
    var v := Validate(s);
    if v != Ok then Step(v, db)
    else if s.id !in db.services then Step(NotFound, db)
    else Step(Ok, db.(services := db.services[s.id := ServiceRow(s.name, s.cost.value)]))
  }

  /** `Service.delete`: remove the row with that ID. */
  function Delete(db: Db, id: string): (r: Step)
    ensures !IsAlnumId(id) ==> r == Step(Invalid(ServiceId), db)
    ensures r.outcome == Ok <==> IsAlnumId(id) && id in db.services
    ensures r.outcome == NotFound <==> IsAlnumId(id) && id !in db.services
    ensures r.outcome == Ok ==> r.db == db.(services := db.services - {id})
    ensures r.outcome != Ok ==> r.db == db
  {
    if !IsAlnumId(id) then Step(Invalid(ServiceId), db)
    else if id !in db.services then Step(NotFound, db)
    else Step(Ok, db.(services := db.services - {id}))
  }

  /** `ServiceUsageDB.add_service_for_patient`: validate the patient ID and the
      service, then append one entry snapshotting the service. Neither the
      patient nor the catalog row is looked up. */
  function Attribute(db: Db, patientId: string, s: ServiceInput): (r: Step)
    ensures !IsAlnumId(patientId) ==> r == Step(Invalid(PatientId), db)
    ensures IsAlnumId(patientId) && Validate(s) != Ok ==> r == Step(Validate(s), db)
    ensures r.outcome == Ok <==> IsAlnumId(patientId) && Validate(s) == Ok
    ensures r.outcome == Ok ==>
              r.db == db.(usage := db.usage + [UsageEntry(patientId, s.id, s.name, s.cost.value)])
    ensures r.outcome == Ok ==>
              && ForPatient(r.db.usage, patientId) == ForPatient(db.usage, patientId) + [UsageEntry(patientId, s.id, s.name, s.cost.value)]
              && Total(ForPatient(r.db.usage, patientId)) == Total(ForPatient(db.usage, patientId)) + s.cost.value
    ensures forall q :: q != patientId ==> ForPatient(r.db.usage, q) == ForPatient(db.usage, q)
    ensures r.outcome != Ok ==> r.db == db
  {
    if !IsAlnumId(patientId) then Step(Invalid(PatientId), db)
    else
      var v := Validate(s);
      if v != Ok then Step(v, db)
      else
        var e := UsageEntry(patientId, s.id, s.name, s.cost.value);
        assert forall q :: ForPatient(db.usage + [e], q) == ForPatient(db.usage, q) + (if q == patientId then [e] else []) by {
          forall q { ForPatientAppend(db.usage, e, q); }
        }
        TotalAppend(ForPatient(db.usage, patientId), e);
        Step(Ok, db.(usage := db.usage + [e]))
  }

  /** `ServiceUsageDB.clear_services_for_patient`: drop every entry of that
      patient and keep all others. It always succeeds. */
  function Clear(db: Db, patientId: string): (r: Step)
    ensures r.outcome == Ok
    ensures r.db == db.(usage := WithoutPatient(db.usage, patientId))
    ensures ForPatient(r.db.usage, patientId) == []
    ensures forall q :: q != patientId ==> ForPatient(r.db.usage, q) == ForPatient(db.usage, q)
    ensures multiset(r.db.usage) + multiset(ForPatient(db.usage, patientId)) == multiset(db.usage)
  {
    ClearedHasNone(db.usage, patientId);
    assert forall q :: q != patientId ==> ForPatient(WithoutPatient(db.usage, patientId), q) == ForPatient(db.usage, q) by {
      forall q | q != patientId { ClearKeepsOthers(db.usage, patientId, q); }
    }
    Partition(db.usage, patientId);
    Step(Ok, db.(usage := WithoutPatient(db.usage, patientId)))
  }

  /** The cost range is closed: both 0 and 5000 are accepted, and anything
      outside them is refused with the cost named. */
  lemma CostRange(id: string, name: string, c: real)
    requires IsAlnumId(id) && IsServiceName(name)
    ensures Validate(ServiceInput(id, name, Some(0.0))) == Ok
    ensures Validate(ServiceInput(id, name, Some(MaxCost))) == Ok
    ensures c < 0.0 || c > 5000.0 ==> Validate(ServiceInput(id, name, Some(c))) == Invalid(Cost)
    ensures Validate(ServiceInput(id, name, None)) == Invalid(Cost)
  {
  }

  /** A second clear of the same patient is a no-op. */
  lemma ClearTwice(db: Db, patientId: string)
    ensures Clear(Clear(db, patientId).db, patientId) == Clear(db, patientId)
  {
    ClearIdempotent(db.usage, patientId);
  }

  /** Changing a catalog price never alters what is already staged for billing. */
  lemma UpdateKeepsSnapshots(db: Db, s: ServiceInput, p: string)
    ensures Total(ForPatient(Update(db, s).db.usage, p)) == Total(ForPatient(db.usage, p))
  {
  }

  lemma AddKeepsConsistent(db: Db, s: ServiceInput)
    requires Consistent(db)
    ensures Consistent(Add(db, s).db)
  {
  }

  lemma UpdateKeepsConsistent(db: Db, s: ServiceInput)
    requires Consistent(db)
    ensures Consistent(Update(db, s).db)
  {
  }

  lemma DeleteKeepsConsistent(db: Db, id: string)
    requires Consistent(db)
    ensures Consistent(Delete(db, id).db)
  {
  }

  lemma AttributeKeepsConsistent(db: Db, patientId: string, s: ServiceInput)
    requires Consistent(db)
    ensures Consistent(Attribute(db, patientId, s).db)
  {
    var r := Attribute(db, patientId, s);
    if r.outcome == Ok {
      var e := UsageEntry(patientId, s.id, s.name, s.cost.value);
      assert IsWellFormed(e);
      assert r.db.usage == db.usage + [e];
      forall i | 0 <= i < |r.db.usage| ensures IsWellFormed(r.db.usage[i]) {
        if i < |db.usage| { assert r.db.usage[i] == db.usage[i]; }
      }
    }
  }

  lemma ClearKeepsConsistent(db: Db, patientId: string)
    requires Consistent(db)
    ensures Consistent(Clear(db, patientId).db)
  {
    SelectionsWellFormed(db.usage, patientId);
  }
}
