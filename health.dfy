/**
 * The health-record program: a generic list repository with first-match lookup and removal, and
 * the index that groups the prescriptions by patient id.
 */
module HealthSys {
  import opened Wrappers
  import opened DateTimes

  datatype Patient = Patient(id: int, name: string, age: int, gender: string)

  datatype Prescription = Prescription(id: int, patientId: int, medicationName: string, dateIssued: DateTime)

  /** The position of the first element of `s` that satisfies `p`, the search `FirstOrDefault` makes. */
  function FirstMatch<T>(s: seq<T>, p: T -> bool): (r: Option<nat>)
    ensures r.None? <==> forall i :: 0 <= i < |s| ==> !p(s[i])
    ensures r.Some? ==> r.value < |s| && p(s[r.value]) && forall j :: 0 <= j < r.value ==> !p(s[j])
  {
    if s == [] then None
    else if p(s[0]) then Some(0)
    else match FirstMatch(s[1..], p)
      case None => None
      case Some(i) => Some(i + 1)
  }

  /** `Repository<T>`: the list `items`, appended to and searched front to back. */
  class Repository<T> {
    var items: seq<T>

    constructor ()
      ensures items == []
    {
      items := [];
    }

    /** Appends `item`; no uniqueness check is made. */
    method Add(item: T)
      modifies this
      ensures items == old(items) + [item]
    {
      items := items + [item];
    }

    /** The stored list itself, in insertion order. */
    function GetAll(): (all: seq<T>)
      reads this
      ensures all == items
    {
      items
    }

    /** The first stored element that satisfies `p`, or none (`default`) when no element does. */
    function GetById(p: T -> bool): (r: Option<T>)
      reads this
      ensures r.None? <==> forall i :: 0 <= i < |items| ==> !p(items[i])
      ensures r.Some? ==>
                p(r.value) &&
                (exists k :: 0 <= k < |items| && items[k] == r.value && forall j :: 0 <= j < k ==> !p(items[j]))
    {
      match FirstMatch(items, p)
      case None => None
      case Some(k) => Some(items[k])
    }

    /**
     * Deletes the first element that satisfies `p` and reports whether there was one.
     * `List.Remove(item)` deletes the first element equal to the match, which is the match itself:
     * an earlier equal element would have satisfied `p` first.
     */
    method Remove(p: T -> bool) returns (removed: bool)
      modifies this
      ensures removed <==> exists i :: 0 <= i < |old(items)| && p(old(items)[i])
      ensures removed ==>
                exists k :: 0 <= k < |old(items)| && p(old(items)[k]) &&
                  (forall j :: 0 <= j < k ==> !p(old(items)[j])) &&
                  items == old(items)[..k] + old(items)[k + 1..]
      ensures !removed ==> items == old(items)
    {
      var found := FirstMatch(items, p);
      if found.None? {
        return false;
      }
      var k := found.value;
      items := items[..k] + items[k + 1..];
      removed := true;
    }
  }

  /** The prescriptions of patient `patientId`, in repository order. */
  function ForPatient(ps: seq<Prescription>, patientId: int): (r: seq<Prescription>)
    ensures |r| <= |ps|
    ensures forall i :: 0 <= i < |r| ==> r[i].patientId == patientId && r[i] in ps
  {
    if ps == [] then []
    else (if ps[0].patientId == patientId then [ps[0]] else []) + ForPatient(ps[1..], patientId)
  }

  /** The patient ids that occur in `ps`. */
  ghost function PatientIds(ps: seq<Prescription>): set<int>
  {
    set p | p in ps :: p.patientId
  }

  /** What `BuildPrescriptionMap` should produce: each patient id present, with its prescriptions. */
  ghost function GroupByPatient(ps: seq<Prescription>): map<int, seq<Prescription>>
  {
    map pid | pid in PatientIds(ps) :: ForPatient(ps, pid)
  }

  /** One step of the grouping loop: `p` appended to the list of its patient, created if absent. */
  function Insert(m: map<int, seq<Prescription>>, p: Prescription): map<int, seq<Prescription>>
  {
    if p.patientId in m then m[p.patientId := m[p.patientId] + [p]] else m[p.patientId := [p]]
  }

  /** The patient ids of `ps`, each once, in the order of their first prescription. */
  ghost function FirstSeenIds(ps: seq<Prescription>): (ids: seq<int>)
    ensures forall i, j :: 0 <= i < j < |ids| ==> ids[i] != ids[j]
    ensures forall pid :: pid in ids <==> pid in PatientIds(ps)
  {
    if ps == [] then []
    else
      var init, last := ps[..|ps| - 1], ps[|ps| - 1];
      assert ps == init + [last];
      assert PatientIds(ps) == PatientIds(init) + {last.patientId};
      var seen := FirstSeenIds(init);
      if last.patientId in seen then seen else seen + [last.patientId]
  }

  /** The loop's two updates, creating the list when absent and then appending, make one `Insert`. */
  lemma InsertInTwoSteps(m: map<int, seq<Prescription>>, p: Prescription)
    ensures var created := if p.patientId in m then m else m[p.patientId := []];
            created[p.patientId := created[p.patientId] + [p]] == Insert(m, p)
  {
    assert [] + [p] == [p];
  }

  /** The sum of the lengths of the lists that `m` holds under `keys`. */
  ghost function SumLengths(m: map<int, seq<Prescription>>, keys: seq<int>): nat
    requires forall i :: 0 <= i < |keys| ==> keys[i] in m
  {
    if keys == [] then 0
    else
      SumLengths(m, keys[..|keys| - 1]) + |m[keys[|keys| - 1]]|
  }

  lemma {:induction false} ForPatientSnoc(ps: seq<Prescription>, p: Prescription, patientId: int)
    ensures ForPatient(ps + [p], patientId) ==
            ForPatient(ps, patientId) + (if p.patientId == patientId then [p] else [])
    decreases |ps|
  {
    if ps != [] {
      var head := if ps[0].patientId == patientId then [ps[0]] else [];
      var tail := if p.patientId == patientId then [p] else [];
      assert (ps + [p])[0] == ps[0] && (ps + [p])[1..] == ps[1..] + [p];
      ForPatientSnoc(ps[1..], p, patientId);
      assert ForPatient(ps + [p], patientId) == head + (ForPatient(ps[1..], patientId) + tail);
    }
  }

  /** A patient has a non-empty list exactly when one of the prescriptions is theirs. */
  lemma {:induction false} ForPatientNonEmpty(ps: seq<Prescription>, patientId: int)
    ensures ForPatient(ps, patientId) != [] <==> patientId in PatientIds(ps)
    ensures ForPatient(ps, patientId) == [] <==> forall i :: 0 <= i < |ps| ==> ps[i].patientId != patientId
    decreases |ps|
  {
    if ps != [] {
      ForPatientNonEmpty(ps[1..], patientId);
      assert ps == [ps[0]] + ps[1..];
      assert forall i :: 1 <= i < |ps| ==> ps[i] == ps[1..][i - 1];
    }
  }

  /** Grouping a longer list is one more `Insert` step: the invariant of the grouping loop. */
  lemma GroupByPatientSnoc(ps: seq<Prescription>, p: Prescription)
    ensures GroupByPatient(ps + [p]) == Insert(GroupByPatient(ps), p)
  {
    var before, after := GroupByPatient(ps), GroupByPatient(ps + [p]);
    assert PatientIds(ps + [p]) == PatientIds(ps) + {p.patientId};
    assert after.Keys == Insert(before, p).Keys;
    forall pid | pid in after.Keys
      ensures after[pid] == Insert(before, p)[pid]
    {
      ForPatientSnoc(ps, p, pid);
      if pid != p.patientId {
        assert Insert(before, p)[pid] == before[pid];
      } else if pid !in before {
        ForPatientNonEmpty(ps, pid);
      }
    }
  }

  /** Grouping one more prescription of a list is one more `Insert` step. */
  lemma GroupByPatientOfPrefix(ps: seq<Prescription>, n: nat)
    requires n <= |ps|
    ensures n == 0 ==> GroupByPatient(ps[..n]) == map[]
    ensures 0 < n ==> GroupByPatient(ps[..n]) == Insert(GroupByPatient(ps[..n - 1]), ps[n - 1])
  {
    if 0 < n {
      assert ps[..n] == ps[..n - 1] + [ps[n - 1]];
      GroupByPatientSnoc(ps[..n - 1], ps[n - 1]);
    }
  }

  /** After grouping, no patient id maps to an empty list. */
  lemma GroupsAreNonEmpty(ps: seq<Prescription>)
    ensures forall pid :: pid in GroupByPatient(ps) ==> GroupByPatient(ps)[pid] != []
  {
    forall pid | pid in GroupByPatient(ps)
      ensures GroupByPatient(ps)[pid] != []
    {
      ForPatientNonEmpty(ps, pid);
    }
  }

  /** Replacing the list under one key changes the sum by the difference in length, if the key is counted. */
  lemma {:induction false} SumLengthsUpdate(m: map<int, seq<Prescription>>, keys: seq<int>, k: int, v: seq<Prescription>)
    requires forall i :: 0 <= i < |keys| ==> keys[i] in m
    requires forall i, j :: 0 <= i < j < |keys| ==> keys[i] != keys[j]
    ensures SumLengths(m[k := v], keys) ==
            if k in keys then SumLengths(m, keys) + |v| - |m[k]| else SumLengths(m, keys)
    decreases |keys|
  {
    if keys != [] {
      var init, last := keys[..|keys| - 1], keys[|keys| - 1];
      assert keys == init + [last];
      SumLengthsUpdate(m, init, k, v);
    }
  }

  /** An `Insert` step adds one to the sum, counting the new key when `Insert` creates it. */
  lemma SumLengthsInsert(m: map<int, seq<Prescription>>, keys: seq<int>, p: Prescription)
    requires forall i :: 0 <= i < |keys| ==> keys[i] in m
    requires forall i, j :: 0 <= i < j < |keys| ==> keys[i] != keys[j]
    requires p.patientId in m <==> p.patientId in keys
    ensures var keys' := if p.patientId in keys then keys else keys + [p.patientId];
            (forall i :: 0 <= i < |keys'| ==> keys'[i] in Insert(m, p)) &&
            SumLengths(Insert(m, p), keys') == SumLengths(m, keys) + 1
  {
    if p.patientId in m {
      assert Insert(m, p).Keys == m.Keys;
      SumLengthsUpdate(m, keys, p.patientId, m[p.patientId] + [p]);
    } else {
      SumLengthsUpdate(m, keys, p.patientId, [p]);
      var keys' := keys + [p.patientId];
      assert keys'[..|keys|] == keys;
      assert Insert(m, p) == m[p.patientId := [p]];
      forall i | 0 <= i < |keys'|
        ensures keys'[i] in Insert(m, p)
      {
        if i < |keys| {
          assert keys'[i] == keys[i];
        }
      }
    }
  }

  /** The first-seen ids are exactly the keys of the grouping. */
  lemma FirstSeenIdsAreKeys(ps: seq<Prescription>)
    ensures forall pid :: pid in FirstSeenIds(ps) <==> pid in GroupByPatient(ps)
    ensures forall i :: 0 <= i < |FirstSeenIds(ps)| ==> FirstSeenIds(ps)[i] in GroupByPatient(ps)
  {
  }

  /**
   * Every prescription lands in exactly one list: summed over the patient ids, each counted once,
   * the list lengths add up to the prescription count.
   */
  lemma {:induction false} GroupsPartitionPrescriptions(ps: seq<Prescription>)
    ensures forall i :: 0 <= i < |FirstSeenIds(ps)| ==> FirstSeenIds(ps)[i] in GroupByPatient(ps)
    ensures SumLengths(GroupByPatient(ps), FirstSeenIds(ps)) == |ps|
    decreases |ps|
  {
    FirstSeenIdsAreKeys(ps);
    if ps != [] {
      var init, p := ps[..|ps| - 1], ps[|ps| - 1];
      assert ps == init + [p];
      GroupsPartitionPrescriptions(init);
      FirstSeenIdsAreKeys(init);
      GroupByPatientSnoc(init, p);
      SumLengthsInsert(GroupByPatient(init), FirstSeenIds(init), p);
    }
  }

  /** `HealthSystemApp`: the two repositories and the prescription index built from the second. */
  class HealthSystemApp {
    const patientRepo: Repository<Patient>
    const prescriptionRepo: Repository<Prescription>
    var prescriptionMap: map<int, seq<Prescription>>

    constructor ()
      ensures fresh(patientRepo) && fresh(prescriptionRepo)
      ensures patientRepo.items == [] && prescriptionRepo.items == [] && prescriptionMap == map[]
    {
      patientRepo := new Repository<Patient>();
      prescriptionRepo := new Repository<Prescription>();
      prescriptionMap := map[];
    }

    /**
     * Clears the index and refills it from the prescription repository. The result does not
     * depend on the index's previous contents, so building twice is the same as building once.
     */
    method BuildPrescriptionMap()
      modifies this
      ensures prescriptionMap == GroupByPatient(prescriptionRepo.items)
    {
      var all := prescriptionRepo.GetAll();
      var index: map<int, seq<Prescription>> := map[];
      GroupByPatientOfPrefix(all, 0);
      for i := 0 to |all|
        invariant index == GroupByPatient(all[..i])
      {
        var p := all[i];
        ghost var before := index;
        if p.patientId !in index {
          index := index[p.patientId := []];
        }
        index := index[p.patientId := index[p.patientId] + [p]];
        InsertInTwoSteps(before, p);
        GroupByPatientOfPrefix(all, i + 1);
      }
      assert all[..|all|] == all;
      prescriptionMap := index;
    }

    /**
     * The lookup `PrintPrescriptionsForPatient` makes: the patient's list, or none ("No
     * prescriptions found"). On an index that is up to date, it answers for the repository.
     */
    function PrescriptionsForPatient(patientId: int): (r: Option<seq<Prescription>>)
      reads this, prescriptionRepo
      ensures prescriptionMap == GroupByPatient(prescriptionRepo.items) ==>
                (r.None? <==> forall i :: 0 <= i < |prescriptionRepo.items| ==>
                                prescriptionRepo.items[i].patientId != patientId)
      ensures prescriptionMap == GroupByPatient(prescriptionRepo.items) && r.Some? ==>
                r.value == ForPatient(prescriptionRepo.items, patientId) && r.value != []
    {
      ForPatientNonEmpty(prescriptionRepo.items, patientId);
      if patientId in prescriptionMap then Some(prescriptionMap[patientId]) else None
    }
  }

  /**
   * The seeded prescriptions, in the order the program adds them; `now`, `yesterday` and
   * `twoDaysAgo` stand for the clock readings the program takes.
   */
  function SeededPrescriptions(now: DateTime, yesterday: DateTime, twoDaysAgo: DateTime): (ps: seq<Prescription>)
    ensures forall i, j :: 0 <= i < j < |ps| ==> ps[i].id != ps[j].id
    ensures forall i :: 0 <= i < |ps| ==> 1 <= ps[i].patientId <= 3
  {
    [Prescription(1, 1, "Paracetamol", now), Prescription(2, 1, "Ibuprofen", twoDaysAgo),
     Prescription(3, 2, "Amoxicillin", yesterday), Prescription(4, 3, "Cough Syrup", now),
     Prescription(5, 2, "Vitamin C", now)]
  }

  /** In the seeded data, patient 2 has prescriptions 3 and 5, in that order, and patient 9 none. */
  lemma SeededGroups(now: DateTime, yesterday: DateTime, twoDaysAgo: DateTime)
    ensures ForPatient(SeededPrescriptions(now, yesterday, twoDaysAgo), 2) ==
            [Prescription(3, 2, "Amoxicillin", yesterday), Prescription(5, 2, "Vitamin C", now)]
    ensures forall i :: 0 <= i < 5 ==> SeededPrescriptions(now, yesterday, twoDaysAgo)[i].patientId != 9
  {
    var ps := SeededPrescriptions(now, yesterday, twoDaysAgo);
    assert ForPatient(ps[4..], 2) == [ps[4]];
    assert ForPatient(ps[3..], 2) == [ps[4]] by { assert ps[3..][1..] == ps[4..]; }
    assert ForPatient(ps[2..], 2) == [ps[2], ps[4]] by { assert ps[2..][1..] == ps[3..]; }
    assert ForPatient(ps[1..], 2) == [ps[2], ps[4]] by { assert ps[1..][1..] == ps[2..]; }
  }

  /**
   * The seeded program up to the lookup: patient 2's list is their two prescriptions in the order
   * added, and an unknown patient has none.
   */
  method SeedAndLookup(now: DateTime, yesterday: DateTime, twoDaysAgo: DateTime)
    returns (forTwo: Option<seq<Prescription>>, forNine: Option<seq<Prescription>>)
    ensures forTwo == Some([Prescription(3, 2, "Amoxicillin", yesterday), Prescription(5, 2, "Vitamin C", now)])
    ensures forNine == None
  {
    var app := new HealthSystemApp();
    app.patientRepo.Add(Patient(1, "Evelyn Domson-Appiah", 30, "Female"));
    app.patientRepo.Add(Patient(2, "Cornelius Yawson", 45, "Male"));
    app.patientRepo.Add(Patient(3, "Ama Montford", 55, "Female"));
    var seeded := SeededPrescriptions(now, yesterday, twoDaysAgo);
    app.prescriptionRepo.Add(seeded[0]);
    app.prescriptionRepo.Add(seeded[1]);
    app.prescriptionRepo.Add(seeded[2]);
    app.prescriptionRepo.Add(seeded[3]);
    app.prescriptionRepo.Add(seeded[4]);
    assert app.prescriptionRepo.items == seeded;
    app.BuildPrescriptionMap();
    SeededGroups(now, yesterday, twoDaysAgo);
    forTwo := app.PrescriptionsForPatient(2);
    forNine := app.PrescriptionsForPatient(9);
  }
}
