/**
 * The usage ledger (`temp_service_usage`): line items staged per patient until
 * that patient is billed. The table has no key, so it is a sequence in
 * insertion order, and one patient may hold the same service several times.
 */
module Ledger {
  import opened Text

  /** One attribution: the patient, and a snapshot of the service's ID, name
      and cost taken when it was attributed. */
  datatype UsageEntry = UsageEntry(patientId: string, serviceId: string, serviceName: string, cost: real)

  /** An entry as attribution admits it. */
  predicate IsWellFormed(e: UsageEntry) {
    IsAlnumId(e.patientId) && IsAlnumId(e.serviceId) && IsServiceName(e.serviceName) && IsCost(e.cost)
  }

  /** `SELECT ... FROM temp_service_usage WHERE patient_id = p`: the entries of
      one patient, in ledger order. */
  function ForPatient(usage: seq<UsageEntry>, p: string): (r: seq<UsageEntry>)
    ensures |r| <= |usage|
    ensures forall e :: e in r <==> e in usage && e.patientId == p
  {
    if usage == [] then []
    else
      var last := usage[|usage| - 1];
      ForPatient(usage[..|usage| - 1], p) + (if last.patientId == p then [last] else [])
  }

  /** `DELETE FROM temp_service_usage WHERE patient_id = p`: the ledger without
      that patient's entries, the others kept in order. */
  function WithoutPatient(usage: seq<UsageEntry>, p: string): (r: seq<UsageEntry>)
    ensures |r| <= |usage|
    ensures forall e :: e in r <==> e in usage && e.patientId != p
  {
    if usage == [] then []
    else
      var last := usage[|usage| - 1];
      WithoutPatient(usage[..|usage| - 1], p) + (if last.patientId != p then [last] else [])
  }

  /** Python's `sum(float(s[2]) for s in services)`: the costs added from the
      left, starting at 0. */
  function Total(charges: seq<UsageEntry>): (r: real)
    ensures (forall i :: 0 <= i < |charges| ==> IsCost(charges[i].cost)) ==>
              0.0 <= r <= MaxCost * |charges| as real
  {
    if charges == [] then 0.0 else Total(charges[..|charges| - 1]) + charges[|charges| - 1].cost
  }

  /** Appending one entry adds it to its own patient's entries only. */
  lemma ForPatientAppend(usage: seq<UsageEntry>, e: UsageEntry, p: string)
    ensures ForPatient(usage + [e], p) == ForPatient(usage, p) + (if e.patientId == p then [e] else [])
  {
    assert (usage + [e])[..|usage|] == usage;
  }

  lemma WithoutPatientAppend(usage: seq<UsageEntry>, e: UsageEntry, p: string)
    ensures WithoutPatient(usage + [e], p) == WithoutPatient(usage, p) + (if e.patientId != p then [e] else [])
  {
    assert (usage + [e])[..|usage|] == usage;
  }

  lemma TotalAppend(charges: seq<UsageEntry>, e: UsageEntry)
    ensures Total(charges + [e]) == Total(charges) + e.cost
  {
    assert (charges + [e])[..|charges|] == charges;
  }

  lemma {:induction false} TotalConcat(s: seq<UsageEntry>, t: seq<UsageEntry>)
    ensures Total(s + t) == Total(s) + Total(t)
  {
    if t != [] {
      var init, last := t[..|t| - 1], t[|t| - 1];
      TotalConcat(s, init);
      assert (s + t)[..|s + t| - 1] == s + init;
      assert (s + t)[|s + t| - 1] == last;
    } else {
      assert s + t == s;
    }
  }

  /** Taking the same entry out of two equal multisets leaves equal multisets. */
  lemma RemoveOne(init: seq<UsageEntry>, x: UsageEntry, front: seq<UsageEntry>, back: seq<UsageEntry>)
    requires multiset(init + [x]) == multiset(front + [x] + back)
    ensures multiset(init) == multiset(front + back)
  {
    assert multiset(init + [x]) == multiset(init) + multiset{x};
    assert multiset(front + [x] + back) == multiset(front) + multiset{x} + multiset(back);
    assert multiset(front + back) == multiset(front) + multiset(back);
    var m, n := multiset(init), multiset(front + back);
    assert m + multiset{x} == n + multiset{x};
    forall e ensures m[e] == n[e] {
      assert (m + multiset{x})[e] == (n + multiset{x})[e];
    }
  }

  /** The total depends only on which entries are summed, not on their order,
      so the order in which the database returns a patient's rows does not
      matter. */
  lemma {:induction false} TotalPermutation(a: seq<UsageEntry>, b: seq<UsageEntry>)
    requires multiset(a) == multiset(b)
    ensures Total(a) == Total(b)
  {
    if a == [] {
      assert |b| == |multiset(b)| == 0;
    } else {
      var init, x := a[..|a| - 1], a[|a| - 1];
      assert a == init + [x];
      assert x in multiset(b);
      var j :| 0 <= j < |b| && b[j] == x;
      var front, back := b[..j], b[j + 1..];
      assert b == front + [x] + back;
      RemoveOne(init, x, front, back);
      TotalPermutation(init, front + back);
      TotalConcat(front + [x], back);
      TotalConcat(front, back);
      TotalAppend(front, x);
    }
  }

  /** Each entry goes to exactly one side: a patient's entries and the rest of
      the ledger together are the whole ledger. */
  lemma {:induction false} Partition(usage: seq<UsageEntry>, p: string)
    ensures multiset(ForPatient(usage, p)) + multiset(WithoutPatient(usage, p)) == multiset(usage)
  {
    if usage != [] {
      var init := usage[..|usage| - 1];
      Partition(init, p);
      assert usage == init + [usage[|usage| - 1]];
    }
  }

  /** A patient's total and the total of everyone else's entries add up to the
      total of the whole ledger: no entry is counted twice or left out. */
  lemma {:induction false} TotalSplit(usage: seq<UsageEntry>, p: string)
    ensures Total(ForPatient(usage, p)) + Total(WithoutPatient(usage, p)) == Total(usage)
  {
    if usage != [] {
      var init, last := usage[..|usage| - 1], usage[|usage| - 1];
      var f, w := ForPatient(init, p), WithoutPatient(init, p);
      TotalSplit(init, p);
      assert Total(usage) == Total(init) + last.cost;
      if last.patientId == p {
        assert ForPatient(usage, p) == f + [last] && WithoutPatient(usage, p) == w;
        TotalAppend(f, last);
      } else {
        assert ForPatient(usage, p) == f && WithoutPatient(usage, p) == w + [last];
        TotalAppend(w, last);
      }
    }
  }

  /** Clearing a patient leaves none of their entries behind. */
  lemma {:induction false} ClearedHasNone(usage: seq<UsageEntry>, p: string)
    ensures ForPatient(WithoutPatient(usage, p), p) == []
  {
    if usage != [] {
      var init, last := usage[..|usage| - 1], usage[|usage| - 1];
      var w := WithoutPatient(init, p);
      ClearedHasNone(init, p);
      if last.patientId != p {
        assert WithoutPatient(usage, p) == w + [last];
        ForPatientAppend(w, last, p);
      } else {
        assert WithoutPatient(usage, p) == w;
      }
    }
  }

  /** Clearing a patient does not change any other patient's entries. */
  lemma {:induction false} ClearKeepsOthers(usage: seq<UsageEntry>, p: string, q: string)
    requires q != p
    ensures ForPatient(WithoutPatient(usage, p), q) == ForPatient(usage, q)
  {
    if usage != [] {
      var init, last := usage[..|usage| - 1], usage[|usage| - 1];
      var w := WithoutPatient(init, p);
      ClearKeepsOthers(init, p, q);
      assert ForPatient(usage, q) == ForPatient(init, q) + (if last.patientId == q then [last] else []);
      if last.patientId != p {
        assert WithoutPatient(usage, p) == w + [last];
        ForPatientAppend(w, last, q);
      } else {
        assert WithoutPatient(usage, p) == w;
      }
    }
  }

  /** A ledger none of whose entries belongs to `p` is left as it is. */
  lemma {:induction false} KeepsForeign(usage: seq<UsageEntry>, p: string)
    requires forall i :: 0 <= i < |usage| ==> usage[i].patientId != p
    ensures WithoutPatient(usage, p) == usage
  {
    if usage != [] {
      var init := usage[..|usage| - 1];
      KeepsForeign(init, p);
      assert usage == init + [usage[|usage| - 1]];
    }
  }

  /** Clearing a patient who has no entries changes nothing. */
  lemma ClearAbsent(usage: seq<UsageEntry>, p: string)
    requires ForPatient(usage, p) == []
    ensures WithoutPatient(usage, p) == usage
  {
    forall i | 0 <= i < |usage|
      ensures usage[i].patientId != p
    {
      assert usage[i] in usage;
    }
    KeepsForeign(usage, p);
  }

  /** Clearing twice is clearing once. */
  lemma ClearIdempotent(usage: seq<UsageEntry>, p: string)
    ensures WithoutPatient(WithoutPatient(usage, p), p) == WithoutPatient(usage, p)
  {
    ClearedHasNone(usage, p);
    ClearAbsent(WithoutPatient(usage, p), p);
  }

  /** A well-formed ledger stays well-formed under a per-patient selection. */
  lemma SelectionsWellFormed(usage: seq<UsageEntry>, p: string)
    requires forall i :: 0 <= i < |usage| ==> IsWellFormed(usage[i])
    ensures forall i :: 0 <= i < |ForPatient(usage, p)| ==> IsWellFormed(ForPatient(usage, p)[i])
    ensures forall i :: 0 <= i < |WithoutPatient(usage, p)| ==> IsWellFormed(WithoutPatient(usage, p)[i])
  {
    var f, w := ForPatient(usage, p), WithoutPatient(usage, p);
    forall i | 0 <= i < |f| ensures IsWellFormed(f[i]) {
      assert f[i] in usage;
    }
    forall i | 0 <= i < |w| ensures IsWellFormed(w[i]) {
      assert w[i] in usage;
    }
  }
}
