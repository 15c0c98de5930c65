/** The medicine list's four state transitions. Each replaces the list with
    a new one built from the previous list; storage persistence is not part
    of this model. */
module Medicines {
  import opened Types

  /** The medicine a submitted form creates: the form's fields, a fresh id,
      not yet taken. */
  function NewMedicine(data: MedicineData, freshId: string): Medicine
  {
    Medicine(freshId, data.name, data.dosage, Text(data.time), false, data.foodRelation)
  }

  /** `addMedicine`: append a new medicine built from the form's fields.
      The id is drawn by the host (a random UUID) and is assumed not to
      occur in the list. */
  function Add(ms: seq<Medicine>, data: MedicineData, freshId: string): (r: seq<Medicine>)
    requires freshId !in Ids(ms)
    ensures |r| == |ms| + 1 && r[..|ms|] == ms
    ensures Ids(r) == Ids(ms) + {freshId}
    ensures UniqueIds(ms) ==> UniqueIds(r)
    ensures var n := r[|ms|];
      && n.id == freshId && !n.taken && n.name == data.name
      && n.dosage == data.dosage && n.time == Text(data.time) && n.foodRelation == data.foodRelation
  {
    var r := ms + [NewMedicine(data, freshId)];
    assert r[..|ms|] == ms;
    assert forall m :: m in r <==> m in ms || m == NewMedicine(data, freshId);
    r
  }

  /** The form's fields spread over a medicine: everything but `id` and
      `taken` is overwritten. */
  function Patch(m: Medicine, data: MedicineData): (r: Medicine)
    ensures r.id == m.id && r.taken == m.taken
  {
    m.(name := data.name, dosage := data.dosage, time := Text(data.time), foodRelation := data.foodRelation)
  }

  /** `updateMedicine`: every medicine carrying `id` gets the form's fields;
      all others are left alone, in the same order. */
  function Update(ms: seq<Medicine>, id: string, data: MedicineData): (r: seq<Medicine>)
    ensures |r| == |ms|
    ensures forall i :: 0 <= i < |ms| ==> r[i].id == ms[i].id && r[i].taken == ms[i].taken
    ensures forall i :: 0 <= i < |ms| && ms[i].id != id ==> r[i] == ms[i]
    ensures forall i :: 0 <= i < |ms| && ms[i].id == id ==>
      r[i].name == data.name && r[i].dosage == data.dosage
      && r[i].time == Text(data.time) && r[i].foodRelation == data.foodRelation
  {
    seq(|ms|, i requires 0 <= i < |ms| => if ms[i].id == id then Patch(ms[i], data) else ms[i])
  }

  /** The medicine with `taken` flipped. */
  function Flip(m: Medicine): Medicine
  {
    m.(taken := !m.taken)
  }

  /** `toggleMedicineTaken`: flip `taken` on every medicine carrying `id`. */
  function Toggle(ms: seq<Medicine>, id: string): (r: seq<Medicine>)
    ensures |r| == |ms|
    ensures forall i :: 0 <= i < |ms| ==> r[i] == if ms[i].id == id then Flip(ms[i]) else ms[i]
  {
    if ms == [] then []
    else [if ms[0].id == id then Flip(ms[0]) else ms[0]] + Toggle(ms[1..], id)
  }

  /** `deleteMedicine`: keep the medicines whose id differs from `id`, in
      their order. */
  function Delete(ms: seq<Medicine>, id: string): (r: seq<Medicine>)
    ensures |r| <= |ms|
    ensures forall m :: m in r <==> m in ms && m.id != id
  {
    if ms == [] then []
    else if ms[0].id == id then Delete(ms[1..], id)
    else [ms[0]] + Delete(ms[1..], id)
  }

  /** How many medicines of `ms` carry `id`. */
  function CountId(ms: seq<Medicine>, id: string): nat
  {
    if ms == [] then 0 else (if ms[0].id == id then 1 else 0) + CountId(ms[1..], id)
  }

  // ---------------------------------------------------------------------
  // Properties

  /** Deleting removes exactly the medicines carrying the id: one fewer
      entry for each of them. */
  lemma {:induction false} DeleteLength(ms: seq<Medicine>, id: string)
    ensures |Delete(ms, id)| == |ms| - CountId(ms, id)
    decreases |ms|
  {
    if ms != [] {
      DeleteLength(ms[1..], id);
    }
  }

  /** Deleting distributes over concatenation, so it keeps the survivors'
      relative order. */
  lemma {:induction false} DeleteAppend(a: seq<Medicine>, b: seq<Medicine>, id: string)
    ensures Delete(a + b, id) == Delete(a, id) + Delete(b, id)
    decreases |a|
  {
    if a == [] {
      assert a + b == b;
    } else {
      assert (a + b)[1..] == a[1..] + b;
      DeleteAppend(a[1..], b, id);
    }
  }

  /** A delete of an id nobody carries changes nothing. */
  lemma {:induction false} DeleteAbsent(ms: seq<Medicine>, id: string)
    requires id !in Ids(ms)
    ensures Delete(ms, id) == ms
    decreases |ms|
  {
    if ms != [] {
      assert ms[0] in ms;
      assert Ids(ms[1..]) <= Ids(ms) by {
        forall m | m in ms[1..] ensures m in ms { }
      }
      DeleteAbsent(ms[1..], id);
      assert [ms[0]] + ms[1..] == ms;
    }
  }

  /** Adding a medicine and then deleting it restores the list. */
  lemma AddThenDelete(ms: seq<Medicine>, data: MedicineData, freshId: string)
    requires freshId !in Ids(ms)
    ensures Delete(Add(ms, data, freshId), freshId) == ms
  {
    DeleteAppend(ms, [NewMedicine(data, freshId)], freshId);
    DeleteAbsent(ms, freshId);
    assert Delete([NewMedicine(data, freshId)], freshId) == [];
  }

  /** Deleting twice is deleting once, and the id is gone afterwards. */
  lemma DeleteIdempotent(ms: seq<Medicine>, id: string)
    ensures Delete(Delete(ms, id), id) == Delete(ms, id)
    ensures id !in Ids(Delete(ms, id))
    ensures Ids(Delete(ms, id)) == Ids(ms) - {id}
  {
    DeleteAbsent(Delete(ms, id), id);
  }

  /** Deleting keeps a subsequence, so unique ids stay unique. */
  lemma {:induction false} DeleteKeepsUnique(ms: seq<Medicine>, id: string)
    requires UniqueIds(ms)
    ensures UniqueIds(Delete(ms, id))
    decreases |ms|
  {
    if ms != [] {
      assert UniqueIds(ms[1..]) by {
        forall i, j | 0 <= i < j < |ms[1..]|
          ensures ms[1..][i].id != ms[1..][j].id
        {
          assert ms[i + 1].id != ms[j + 1].id;
        }
      }
      DeleteKeepsUnique(ms[1..], id);
      var t := Delete(ms[1..], id);
      if ms[0].id != id {
        var r := [ms[0]] + t;
        forall i, j | 0 <= i < j < |r|
          ensures r[i].id != r[j].id
        {
          if i == 0 {
            assert r[j] in t;
            var k :| 1 <= k < |ms| && ms[k] == r[j];
            assert ms[0].id != ms[k].id;
          } else {
            assert r[i] == t[i - 1] && r[j] == t[j - 1];
          }
        }
      }
    }
  }

  /** Toggling the same id twice restores the list. */
  lemma ToggleTwice(ms: seq<Medicine>, id: string)
    ensures Toggle(Toggle(ms, id), id) == ms
  {
    var r := Toggle(Toggle(ms, id), id);
    assert forall i :: 0 <= i < |ms| ==> r[i] == ms[i];
  }

  /** Toggling flips exactly the entries carrying the id and keeps the ids. */
  lemma ToggleKeepsIds(ms: seq<Medicine>, id: string)
    ensures Ids(Toggle(ms, id)) == Ids(ms)
    ensures UniqueIds(ms) ==> UniqueIds(Toggle(ms, id))
  {
    var r := Toggle(ms, id);
    forall k | k in Ids(ms) ensures k in Ids(r)
    {
      var i :| 0 <= i < |ms| && ms[i].id == k;
      assert r[i].id == k;
    }
    forall k | k in Ids(r) ensures k in Ids(ms)
    {
      var i :| 0 <= i < |r| && r[i].id == k;
      assert ms[i].id == k;
    }
  }

  /** Updating twice with the same fields is updating once; an update of
      an id nobody carries changes nothing; ids are kept. */
  lemma UpdateIdempotent(ms: seq<Medicine>, id: string, data: MedicineData)
    ensures Update(Update(ms, id, data), id, data) == Update(ms, id, data)
    ensures id !in Ids(ms) ==> Update(ms, id, data) == ms
  {
    var u := Update(ms, id, data);
    assert forall i :: 0 <= i < |ms| ==> Update(u, id, data)[i] == u[i];
    if id !in Ids(ms) {
      forall i | 0 <= i < |ms| ensures u[i] == ms[i]
      {
        assert ms[i] in ms;
      }
    }
  }

  /** An update keeps every id, so a list with unique ids keeps them. */
  lemma UpdateKeepsIds(ms: seq<Medicine>, id: string, data: MedicineData)
    ensures Ids(Update(ms, id, data)) == Ids(ms)
    ensures UniqueIds(ms) ==> UniqueIds(Update(ms, id, data))
  {
    var r := Update(ms, id, data);
    forall k | k in Ids(ms) ensures k in Ids(r)
    {
      var i :| 0 <= i < |ms| && ms[i].id == k;
      assert r[i].id == k;
    }
    forall k | k in Ids(r) ensures k in Ids(ms)
    {
      var i :| 0 <= i < |r| && r[i].id == k;
      assert ms[i].id == k;
    }
  }
}
