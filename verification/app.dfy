/** The app shell: the medicine list, the pending reminders, and the
    add/edit form's state. Whenever the list changes, every reminder is
    cancelled and the untaken medicines are scheduled afresh. */
module App {
  import opened Types
  import opened JsText
  import opened Reminders
  import Medicines
  import MedicineCard

  datatype AppState = AppState(
    medicines: seq<Medicine>,
    reminders: Scheduler,
    modalOpen: bool,
    editing: Option<Medicine>)

  /** `medicines.filter(m => !m.taken)`. */
  function Untaken(ms: seq<Medicine>): (r: seq<Medicine>)
    ensures |r| <= |ms|
    ensures forall m :: m in r <==> m in ms && !m.taken
  {
    if ms == [] then []
    else if ms[0].taken then Untaken(ms[1..])
    else [ms[0]] + Untaken(ms[1..])
  }

  /** The filter keeps order: it distributes over concatenation. */
  lemma {:induction false} UntakenAppend(a: seq<Medicine>, b: seq<Medicine>)
    ensures Untaken(a + b) == Untaken(a) + Untaken(b)
    decreases |a|
  {
    if a == [] {
      assert a + b == b;
    } else {
      assert (a + b)[1..] == a[1..] + b;
      UntakenAppend(a[1..], b);
    }
  }

  /** The effect run on every change of the list: cancel every reminder,
      then schedule the untaken medicines. */
  function Rebuild(s: Scheduler, ms: seq<Medicine>, nowMs: int): (r: Scheduler)
    ensures s.nextHandle <= r.nextHandle <= s.nextHandle + |ms|
  {
    Schedule(CancelAll(s), Untaken(ms), nowMs)
  }

  /** The ids of the untaken medicines of `ms` that are due at `nowMs`. */
  function DueUntakenIds(ms: seq<Medicine>, nowMs: int): set<string>
  {
    set m | m in ms && !m.taken && Due(m, nowMs) :: m.id
  }

  /** A new list is committed: it replaces the old one and the effect
      rebuilds the reminders. */
  function Commit(app: AppState, ms: seq<Medicine>, nowMs: int): (r: AppState)
    ensures r.medicines == ms && r.modalOpen == app.modalOpen && r.editing == app.editing
    ensures r.reminders == Rebuild(app.reminders, ms, nowMs)
  {
    app.(medicines := ms, reminders := Rebuild(app.reminders, ms, nowMs))
  }

  /** The app after loading `stored`: nothing pending, then one rebuild. */
  function Mount(stored: seq<Medicine>, nowMs: int): (r: AppState)
    ensures r.medicines == stored && !r.modalOpen && r.editing.None?
    ensures r.reminders == Rebuild(Idle, stored, nowMs)
  {
    Commit(AppState(stored, Idle, false, None), stored, nowMs)
  }

  /** `handleOpenAddModal`. */
  function OpenAdd(app: AppState): (r: AppState)
    ensures r.modalOpen && r.editing.None?
    ensures r.medicines == app.medicines && r.reminders == app.reminders
  {
    app.(modalOpen := true, editing := None)
  }

  /** `handleOpenEditModal`. */
  function OpenEdit(app: AppState, m: Medicine): (r: AppState)
    ensures r.modalOpen && r.editing == Some(m)
    ensures r.medicines == app.medicines && r.reminders == app.reminders
  {
    app.(modalOpen := true, editing := Some(m))
  }

  /** `handleCloseModal`. */
  function CloseModal(app: AppState): (r: AppState)
    ensures !r.modalOpen && r.editing.None?
    ensures r.medicines == app.medicines && r.reminders == app.reminders
  {
    app.(modalOpen := false, editing := None)
  }

  /** A JavaScript truthiness test on an optional id: present and not the
      empty string. */
  predicate Truthy(id: Option<string>)
  {
    id.Some? && id.value != ""
  }

  /** Opening a form and closing it again is closing alone: the modal
      setters touch neither the list nor the reminders, and the edited
      medicine does not outlive the modal. */
  lemma ModalRoundTrip(app: AppState, m: Medicine)
    ensures CloseModal(OpenAdd(app)) == CloseModal(app)
    ensures CloseModal(OpenEdit(app, m)) == CloseModal(app)
    ensures OpenEdit(CloseModal(app), m) == OpenEdit(app, m)
    ensures OpenAdd(OpenEdit(app, m)) == OpenAdd(app)
  {
  }

  /** `handleSaveMedicine`: with a truthy id the medicine carrying it is
      updated, otherwise a new one is added; then the modal closes. */
  function SaveMedicine(app: AppState, data: MedicineData, id: Option<string>, freshId: string, nowMs: int): (r: AppState)
    requires freshId !in Ids(app.medicines)
    ensures !r.modalOpen && r.editing.None?
    ensures Truthy(id) ==> r.medicines == Medicines.Update(app.medicines, id.value, data)
    ensures !Truthy(id) ==> r.medicines == Medicines.Add(app.medicines, data, freshId)
    ensures r.reminders == Rebuild(app.reminders, r.medicines, nowMs)
  {
    var ms := if Truthy(id) then Medicines.Update(app.medicines, id.value, data)
              else Medicines.Add(app.medicines, data, freshId);
    CloseModal(Commit(app, ms, nowMs))
  }

  /** The form's submit handler: an empty name or time only raises an
      alert; otherwise the fields are saved under the edited medicine's id,
      if any. */
  function Submit(app: AppState, data: MedicineData, freshId: string, nowMs: int): (r: AppState)
    requires freshId !in Ids(app.medicines)
    ensures data.name == [] || data.time == [] ==> r == app
    ensures data.name != [] && data.time != [] ==> !r.modalOpen && r.editing.None?
    ensures data.name != [] && data.time != [] && app.editing.Some? && app.editing.value.id != [] ==>
      r.medicines == Medicines.Update(app.medicines, app.editing.value.id, data)
    ensures data.name != [] && data.time != [] && (app.editing.None? || app.editing.value.id == []) ==>
      r.medicines == Medicines.Add(app.medicines, data, freshId)
  {
    if data.name == [] || data.time == [] then app
    else
      var id := if app.editing.Some? then Some(app.editing.value.id) else None;
      SaveMedicine(app, data, id, freshId, nowMs)
  }

  /** `toggleMedicineTaken` followed by the rebuild. */
  function ToggleTaken(app: AppState, id: string, nowMs: int): (r: AppState)
    ensures r.medicines == Medicines.Toggle(app.medicines, id)
    ensures r.modalOpen == app.modalOpen && r.editing == app.editing
    ensures r.reminders == Rebuild(app.reminders, r.medicines, nowMs)
  {
    Commit(app, Medicines.Toggle(app.medicines, id), nowMs)
  }

  /** `deleteMedicine` followed by the rebuild. */
  function DeleteMedicine(app: AppState, id: string, nowMs: int): (r: AppState)
    ensures r.medicines == Medicines.Delete(app.medicines, id)
    ensures r.modalOpen == app.modalOpen && r.editing == app.editing
    ensures r.reminders == Rebuild(app.reminders, r.medicines, nowMs)
  {
    Commit(app, Medicines.Delete(app.medicines, id), nowMs)
  }

  // ---------------------------------------------------------------------
  // Properties

  /** Filtering keeps a subsequence, so unique ids stay unique. */
  lemma {:induction false} UntakenKeepsUnique(ms: seq<Medicine>)
    requires UniqueIds(ms)
    ensures UniqueIds(Untaken(ms))
    decreases |ms|
  {
    if ms != [] {
      assert UniqueIds(ms[1..]) by {
        forall i, j | 0 <= i < j < |ms[1..]|
          ensures ms[1..][i].id != ms[1..][j].id
        {
          assert ms[i + 1].id != ms[j + 1].id;
        }
      }
      UntakenKeepsUnique(ms[1..]);
      var t := Untaken(ms[1..]);
      if !ms[0].taken {
        var r := [ms[0]] + t;
        forall i, j | 0 <= i < j < |r|
          ensures r[i].id != r[j].id
        {
          if i == 0 {
            assert r[j] in t;
            var k :| 1 <= k < |ms| && ms[k] == r[j];
            assert ms[0].id != ms[k].id;
          } else {
            assert r[i] == t[i - 1] && r[j] == t[j - 1];
          }
        }
      }
    }
  }

  /** After a rebuild the record holds exactly the ids of the untaken
      medicines that are due, `__proto__` aside; in particular a taken
      medicine whose id no untaken medicine shares has no entry. */
  lemma RebuildRecordsExactly(s: Scheduler, ms: seq<Medicine>, nowMs: int)
    ensures Rebuild(s, ms, nowMs).ids.Keys == DueUntakenIds(ms, nowMs) - {ProtoKey}
    ensures forall m :: m in ms && m.taken && UniqueIds(ms) ==> m.id !in Rebuild(s, ms, nowMs).ids
  {
    ScheduleIds(CancelAll(s), Untaken(ms), nowMs);
    DueIdsOfUntaken(ms, nowMs);
    forall m | m in ms && m.taken && UniqueIds(ms)
      ensures m.id !in DueUntakenIds(ms, nowMs)
    {
      TakenIdNotDue(ms, m, nowMs);
    }
  }

  lemma DueIdsOfUntaken(ms: seq<Medicine>, nowMs: int)
    ensures DueIds(Untaken(ms), nowMs) == DueUntakenIds(ms, nowMs)
  {
    var u := Untaken(ms);
    forall k | k in DueIds(u, nowMs) ensures k in DueUntakenIds(ms, nowMs)
    {
      var m :| m in u && Due(m, nowMs) && m.id == k;
      assert m in ms && !m.taken;
    }
    forall k | k in DueUntakenIds(ms, nowMs) ensures k in DueIds(u, nowMs)
    {
      var m :| m in ms && !m.taken && Due(m, nowMs) && m.id == k;
      assert m in u;
    }
  }

  lemma TakenIdNotDue(ms: seq<Medicine>, m: Medicine, nowMs: int)
    requires m in ms && m.taken && UniqueIds(ms)
    ensures m.id !in DueUntakenIds(ms, nowMs)
  {
    forall m' | m' in ms && !m'.taken
      ensures m'.id != m.id
    {
      var i :| 0 <= i < |ms| && ms[i] == m;
      var j :| 0 <= j < |ms| && ms[j] == m';
      assert i != j;
    }
  }

  /** A rebuild from an empty list, or one whose medicines are all taken,
      leaves no entry and, from a state that orphans no timer, no live
      timer. */
  lemma RebuildEmpty(s: Scheduler, ms: seq<Medicine>, nowMs: int)
    requires forall m :: m in ms ==> m.taken
    ensures Rebuild(s, ms, nowMs).ids == map[]
    ensures Tracked(s) ==> Rebuild(s, ms, nowMs).timers == map[]
  {
    AllTakenNoneLeft(ms);
  }

  lemma {:induction false} AllTakenNoneLeft(ms: seq<Medicine>)
    requires forall m :: m in ms ==> m.taken
    ensures Untaken(ms) == []
    decreases |ms|
  {
    if ms != [] {
      assert ms[0] in ms;
      assert forall m :: m in ms[1..] ==> m in ms;
      AllTakenNoneLeft(ms[1..]);
    }
  }

  /** No stale reminder survives a rebuild: from a state that orphans no
      timer, every live timer afterwards was installed by this rebuild, for
      an untaken and due medicine of the new list, with its delay. A deleted
      medicine, a medicine marked taken and an edited time therefore leave
      nothing behind. */
  lemma RebuildNoStale(s: Scheduler, ms: seq<Medicine>, nowMs: int)
    requires Valid(s)
    ensures var r := Rebuild(s, ms, nowMs);
      forall h :: h in r.timers ==>
        s.nextHandle <= h && InstalledFrom(r.timers[h], Untaken(ms), nowMs)
        && r.timers[h].medicine in ms && !r.timers[h].medicine.taken
  {
    var c := CancelAll(s);
    assert c.timers == map[];
    ScheduleNewTimers(c, Untaken(ms), nowMs);
  }

  /** Every untaken medicine that is due gets a live timer, with a fresh
      handle and its delay, whatever the ids in the list; when the
      scheduler is valid, the ids are unique and this one is not
      `__proto__`, the record reaches that timer. */
  lemma RebuildCoversDue(s: Scheduler, ms: seq<Medicine>, nowMs: int, m: Medicine)
    requires HandlesBelow(s)
    requires m in ms && !m.taken && Due(m, nowMs)
    ensures HasTimer(Rebuild(s, ms, nowMs), s.nextHandle, TimerTask(m, DelayMs(m.time, nowMs).value))
    ensures var r := Rebuild(s, ms, nowMs);
      Valid(s) && UniqueIds(ms) && m.id != ProtoKey ==>
        m.id in r.ids && r.ids[m.id] in r.timers && r.timers[r.ids[m.id]].medicine == m
  {
    var c := CancelAll(s);
    var r := Rebuild(s, ms, nowMs);
    ScheduleStartsDue(c, Untaken(ms), nowMs, m);
    if Valid(s) && UniqueIds(ms) && m.id != ProtoKey {
      assert m.id in DueIds(Untaken(ms), nowMs);
      ScheduleCoversDue(c, Untaken(ms), nowMs);
      RebuildNoStale(s, ms, nowMs);
      var n := r.timers[r.ids[m.id]].medicine;
      assert n in ms && n.id == m.id;
      var i :| 0 <= i < |ms| && ms[i] == m;
      var j :| 0 <= j < |ms| && ms[j] == n;
      assert i == j;
    }
  }

  /** With unique ids, none of the due ones `__proto__`, a rebuild keeps
      the scheduler's invariant. */
  lemma RebuildKeepsValid(s: Scheduler, ms: seq<Medicine>, nowMs: int)
    requires Valid(s) && UniqueIds(ms) && ProtoKey !in DueUntakenIds(ms, nowMs)
    ensures Valid(Rebuild(s, ms, nowMs))
  {
    var c := CancelAll(s);
    DueIdsOfUntaken(ms, nowMs);
    UntakenKeepsUnique(ms);
    ScheduleKeepsTracked(c, Untaken(ms), nowMs);
    ScheduleKeepsHandlesBelow(c, Untaken(ms), nowMs);
  }

  /** A live timer outside the record survives a rebuild unchanged and
      stays outside the record: cancel-all cannot reach it, and the pass
      only records fresh handles. */
  lemma OrphanSurvivesRebuild(s: Scheduler, ms: seq<Medicine>, nowMs: int, h: Handle)
    requires HandlesBelow(s) && h in s.timers && h !in s.ids.Values
    ensures var r := Rebuild(s, ms, nowMs);
      && HandlesBelow(r) && h in r.timers && r.timers[h] == s.timers[h]
      && h !in r.ids.Values
  {
    var c := CancelAll(s);
    var u := Untaken(ms);
    ScheduleKeepsTimers(c, u, nowMs);
    ScheduleKeepsHandlesBelow(c, u, nowMs);
    ScheduleIds(c, u, nowMs);
    ScheduleCoversDue(c, u, nowMs);
    var r := Rebuild(s, ms, nowMs);
    forall k | k in r.ids
      ensures r.ids[k] != h
    {
      assert k in DueIds(u, nowMs);
    }
  }

  /** The reminders after one rebuild per committed list, in order; each
      step carries its list and the time it is committed at. */
  function RebuildAll(s: Scheduler, steps: seq<(seq<Medicine>, int)>): (r: Scheduler)
    ensures s.nextHandle <= r.nextHandle
    decreases |steps|
  {
    if steps == [] then s
    else RebuildAll(Rebuild(s, steps[0].0, steps[0].1), steps[1..])
  }

  /** An orphaned timer is never cleared: it survives every later sequence
      of rebuilds unchanged and outside the record. */
  lemma {:induction false} OrphanSurvivesRebuilds(s: Scheduler, steps: seq<(seq<Medicine>, int)>, h: Handle)
    requires HandlesBelow(s) && h in s.timers && h !in s.ids.Values
    ensures var r := RebuildAll(s, steps);
      h in r.timers && r.timers[h] == s.timers[h] && h !in r.ids.Values
    decreases |steps|
  {
    if steps != [] {
      OrphanSurvivesRebuild(s, steps[0].0, steps[0].1, h);
      OrphanSurvivesRebuilds(Rebuild(s, steps[0].0, steps[0].1), steps[1..], h);
    }
  }

  /** The app's invariant: the scheduler orphans no timer, the ids of the
      list are unique, and none of them is `__proto__`. */
  predicate AppValid(app: AppState)
  {
    Valid(app.reminders) && UniqueIds(app.medicines) && ProtoKey !in Ids(app.medicines)
  }

  /** A rebuild over a list without the id `__proto__` keeps the
      scheduler's invariant when the list's ids are unique. */
  lemma RebuildKeepsValidOf(s: Scheduler, ms: seq<Medicine>, nowMs: int)
    requires Valid(s) && UniqueIds(ms) && ProtoKey !in Ids(ms)
    ensures Valid(Rebuild(s, ms, nowMs))
  {
    assert ProtoKey !in DueUntakenIds(ms, nowMs);
    RebuildKeepsValid(s, ms, nowMs);
  }

  /** The app starts out valid from any stored list with unique ids, none
      of them `__proto__`. */
  lemma MountValid(stored: seq<Medicine>, nowMs: int)
    requires UniqueIds(stored) && ProtoKey !in Ids(stored)
    ensures AppValid(Mount(stored, nowMs))
  {
    RebuildKeepsValidOf(Idle, stored, nowMs);
  }

  /** Saving keeps the app's invariant. */
  lemma SaveKeepsAppValid(app: AppState, data: MedicineData, id: Option<string>, freshId: string, nowMs: int)
    requires AppValid(app) && freshId !in Ids(app.medicines) && freshId != ProtoKey
    ensures AppValid(SaveMedicine(app, data, id, freshId, nowMs))
  {
    var ms := SaveMedicine(app, data, id, freshId, nowMs).medicines;
    if Truthy(id) {
      Medicines.UpdateKeepsIds(app.medicines, id.value, data);
    }
    RebuildKeepsValidOf(app.reminders, ms, nowMs);
  }

  /** Submitting the form keeps the app's invariant. */
  lemma SubmitKeepsAppValid(app: AppState, data: MedicineData, freshId: string, nowMs: int)
    requires AppValid(app) && freshId !in Ids(app.medicines) && freshId != ProtoKey
    ensures AppValid(Submit(app, data, freshId, nowMs))
  {
    if data.name != [] && data.time != [] {
      var id := if app.editing.Some? then Some(app.editing.value.id) else None;
      SaveKeepsAppValid(app, data, id, freshId, nowMs);
    }
  }

  /** Toggling and deleting keep the app's invariant. */
  lemma ToggleDeleteKeepAppValid(app: AppState, id: string, nowMs: int)
    requires AppValid(app)
    ensures AppValid(ToggleTaken(app, id, nowMs))
    ensures AppValid(DeleteMedicine(app, id, nowMs))
  {
    Medicines.ToggleKeepsIds(app.medicines, id);
    RebuildKeepsValidOf(app.reminders, Medicines.Toggle(app.medicines, id), nowMs);
    Medicines.DeleteKeepsUnique(app.medicines, id);
    Medicines.DeleteIdempotent(app.medicines, id);
    RebuildKeepsValidOf(app.reminders, Medicines.Delete(app.medicines, id), nowMs);
  }

  /** A rebuild over a list in which no untaken medicine carries `id`
      leaves no entry and no live timer for `id`. */
  lemma RebuildDropsId(s: Scheduler, ms: seq<Medicine>, nowMs: int, id: string)
    requires Valid(s)
    requires forall n :: n in ms && !n.taken ==> n.id != id
    ensures var r := Rebuild(s, ms, nowMs);
      id !in r.ids && forall h :: h in r.timers ==> r.timers[h].medicine.id != id
  {
    RebuildRecordsExactly(s, ms, nowMs);
    RebuildNoStale(s, ms, nowMs);
  }

  /** Marking a medicine taken removes its reminder: no live timer fires
      for it after the rebuild. */
  lemma TakenLosesReminder(app: AppState, m: Medicine, nowMs: int)
    requires AppValid(app) && m in app.medicines && !m.taken
    ensures var r := ToggleTaken(app, m.id, nowMs);
      m.id !in r.reminders.ids
      && forall h :: h in r.reminders.timers ==> r.reminders.timers[h].medicine.id != m.id
  {
    var ms := Medicines.Toggle(app.medicines, m.id);
    var i :| 0 <= i < |app.medicines| && app.medicines[i] == m;
    forall n | n in ms && !n.taken
      ensures n.id != m.id
    {
      var j :| 0 <= j < |ms| && ms[j] == n;
      if j != i {
        assert app.medicines[j].id != m.id;
      }
    }
    RebuildDropsId(app.reminders, ms, nowMs, m.id);
  }

  /** Deleting a medicine removes its reminder. */
  lemma DeletedLosesReminder(app: AppState, id: string, nowMs: int)
    requires Valid(app.reminders)
    ensures var r := DeleteMedicine(app, id, nowMs);
      id !in r.reminders.ids
      && forall h :: h in r.reminders.timers ==> r.reminders.timers[h].medicine.id != id
  {
    RebuildDropsId(app.reminders, Medicines.Delete(app.medicines, id), nowMs, id);
  }

  /** Firing a reminder keeps the app's invariant. */
  lemma FireKeepsAppValid(app: AppState, h: Handle, sound: string, granted: bool)
    requires AppValid(app) && h in app.reminders.timers
    ensures AppValid(app.(reminders := Fire(app.reminders, h, sound, granted).0))
  {
    FireKeepsValid(app.reminders, h, sound, granted);
  }

  /** Why ids must be unique: two due medicines sharing an id leave the
      first one's timer out of the record, and no later rebuild can cancel
      it, so it still fires after the list has been emptied. */
  lemma DuplicateIdOrphansTimer()
    ensures var a := Medicine("a", "x", "1", Text(HhMm(8, 0)), false, None);
      var r := Rebuild(Idle, [a, a.(name := "y")], 7 * MsPerHour);
      && !Tracked(r)
      && 1 in Rebuild(r, [], 7 * MsPerHour).timers
  {
    var a := Medicine("a", "x", "1", Text(HhMm(8, 0)), false, None);
    var b := a.(name := "y");
    DueIffLater(8, 0, 7 * MsPerHour, a);
    DueIffLater(8, 0, 7 * MsPerHour, b);
    SharedIdOrphansTimer(a, b, 7 * MsPerHour);
  }

  /** Two untaken due medicines with the same id, scheduled from scratch:
      the first timer is live but unreachable from the record. */
  lemma SharedIdOrphansTimer(a: Medicine, b: Medicine, nowMs: int)
    requires a.id == b.id && !a.taken && !b.taken && Due(a, nowMs) && Due(b, nowMs)
    ensures var r := Rebuild(Idle, [a, b], nowMs);
      && !Tracked(r)
      && 1 in Rebuild(r, [], nowMs).timers
  {
    var d1, d2 := DelayMs(a.time, nowMs).value, DelayMs(b.time, nowMs).value;
    RebuildPair(a, b, nowMs);
    InstallPair(a, b, d1, d2);
    OrphanAfterOverwrite(a, b, d1, d2);
    RebuildNothing(Rebuild(Idle, [a, b], nowMs), nowMs);
  }

  /** The orphan left by two medicines sharing an id is never cleared,
      whatever lists are committed afterwards. */
  lemma SharedIdOrphanNeverCleared(a: Medicine, b: Medicine, nowMs: int, steps: seq<(seq<Medicine>, int)>)
    requires a.id == b.id && !a.taken && !b.taken && Due(a, nowMs) && Due(b, nowMs)
    ensures var r := Rebuild(Idle, [a, b], nowMs);
      1 in RebuildAll(r, steps).timers && 1 !in RebuildAll(r, steps).ids.Values
  {
    var r := Rebuild(Idle, [a, b], nowMs);
    SharedIdOrphansTimer(a, b, nowMs);
    RebuildNothing(r, nowMs);
    ScheduleKeepsHandlesBelow(CancelAll(Idle), Untaken([a, b]), nowMs);
    OrphanSurvivesRebuilds(r, steps, 1);
  }

  /** A medicine whose id is `__proto__` gets a timer but no record entry,
      so cancel-all cannot reach it: after the medicine is marked taken or
      deleted, its reminder is still live. */
  lemma ProtoIdOrphansTimer(m: Medicine, nowMs: int, laterMs: int)
    requires m.id == ProtoKey && !m.taken && Due(m, nowMs)
    ensures var app := Mount([m], nowMs);
      && app.reminders.ids == map[] && !Tracked(app.reminders)
      && 1 in ToggleTaken(app, m.id, laterMs).reminders.timers
      && 1 in DeleteMedicine(app, m.id, laterMs).reminders.timers
  {
    var app := Mount([m], nowMs);
    ProtoMountOrphans(m, nowMs);
    var toggled, deleted := ToggleTaken(app, m.id, laterMs), DeleteMedicine(app, m.id, laterMs);
    OrphanSurvivesRebuild(app.reminders, toggled.medicines, laterMs, 1);
    OrphanSurvivesRebuild(app.reminders, deleted.medicines, laterMs, 1);
  }

  /** A stored medicine under `__proto__`, due at 08:00 and mounted at
      07:00, still alerts after it has been deleted. */
  lemma ProtoIdExample(laterMs: int)
    ensures var m := Medicine(ProtoKey, "x", "1", Text(HhMm(8, 0)), false, None);
      1 in DeleteMedicine(Mount([m], 7 * MsPerHour), m.id, laterMs).reminders.timers
  {
    var m := Medicine(ProtoKey, "x", "1", Text(HhMm(8, 0)), false, None);
    DueIffLater(8, 0, 7 * MsPerHour, m);
    ProtoIdOrphansTimer(m, 7 * MsPerHour, laterMs);
  }

  /** Mounting a due medicine under `__proto__` leaves its timer live and
      outside the record. */
  lemma ProtoMountOrphans(m: Medicine, nowMs: int)
    requires m.id == ProtoKey && !m.taken && Due(m, nowMs)
    ensures var s := Mount([m], nowMs).reminders;
      && s.ids == map[] && HandlesBelow(s) && 1 in s.timers && 1 !in s.ids.Values
  {
    RebuildSingle(m, nowMs);
  }

  /** Rebuilding one untaken, due medicine from scratch. */
  lemma RebuildSingle(m: Medicine, nowMs: int)
    requires !m.taken && Due(m, nowMs)
    ensures Rebuild(Idle, [m], nowMs)
      == Scheduler(Store(map[], m.id, 1), map[1 := TimerTask(m, DelayMs(m.time, nowMs).value)], 2)
  {
    RebuildOne(m, nowMs);
    InstallSingle(Pending(m, DelayMs(m.time, nowMs)));
  }

  /** Rebuilding one untaken medicine from scratch installs its read
      delay. */
  lemma RebuildOne(m: Medicine, nowMs: int)
    requires !m.taken
    ensures Rebuild(Idle, [m], nowMs) == InstallAll(Idle, [Pending(m, DelayMs(m.time, nowMs))])
  {
    assert Untaken([m]) == [m] by {
      assert [m][1..] == [];
    }
    assert CancelAll(Idle) == Idle;
    assert Plan([m], nowMs) == [Pending(m, DelayMs(m.time, nowMs))];
  }

  /** Installing one firing entry from scratch. */
  lemma InstallSingle(p: Pending)
    requires Fires(p)
    ensures InstallAll(Idle, [p])
      == Scheduler(Store(map[], p.medicine.id, 1), map[1 := TimerTask(p.medicine, p.delayMs.value)], 2)
  {
    assert [p][1..] == [];
    assert InstallAll(Idle, [p]) == InstallAll(Install(Idle, p), []);
  }

  /** A rebuild of an empty list only cancels. */
  lemma RebuildNothing(s: Scheduler, nowMs: int)
    ensures Rebuild(s, [], nowMs) == CancelAll(s)
  {
    assert Plan([], nowMs) == [];
  }

  /** Rebuilding two untaken medicines from scratch installs their read
      delays in order. */
  lemma RebuildPair(a: Medicine, b: Medicine, nowMs: int)
    requires !a.taken && !b.taken
    ensures Rebuild(Idle, [a, b], nowMs)
      == InstallAll(Idle, [Pending(a, DelayMs(a.time, nowMs)), Pending(b, DelayMs(b.time, nowMs))])
  {
    UntakenPair(a, b);
    assert CancelAll(Idle) == Idle;
    assert Plan([a, b], nowMs) == [Pending(a, DelayMs(a.time, nowMs)), Pending(b, DelayMs(b.time, nowMs))];
  }

  /** Installing two firing entries from scratch. */
  lemma InstallPair(a: Medicine, b: Medicine, d1: int, d2: int)
    requires d1 > 0 && d2 > 0
    ensures InstallAll(Idle, [Pending(a, Some(d1)), Pending(b, Some(d2))])
      == Scheduler(Store(Store(map[], a.id, 1), b.id, 2), map[1 := TimerTask(a, d1)][2 := TimerTask(b, d2)], 3)
  {
    var ps := [Pending(a, Some(d1)), Pending(b, Some(d2))];
    assert ps[1..] == [Pending(b, Some(d2))] && ps[1..][1..] == [];
    var s1 := Install(Idle, ps[0]);
    assert s1 == Scheduler(Store(map[], a.id, 1), map[1 := TimerTask(a, d1)], 2);
    var s2 := Install(s1, ps[1]);
    assert InstallAll(s2, []) == s2;
    assert InstallAll(s1, ps[1..]) == s2;
  }

  lemma UntakenPair(a: Medicine, b: Medicine)
    requires !a.taken && !b.taken
    ensures Untaken([a, b]) == [a, b] && Untaken([]) == []
  {
    assert [a, b][1..] == [b] && [b][1..] == [];
  }

  /** Overwriting a record entry leaves the first timer live and
      unreachable, and cancelling then rescheduling nothing keeps it. */
  lemma OrphanAfterOverwrite(a: Medicine, b: Medicine, d1: int, d2: int)
    requires a.id == b.id
    ensures var s := Scheduler(Store(Store(map[], a.id, 1), b.id, 2), map[1 := TimerTask(a, d1)][2 := TimerTask(b, d2)], 3);
      && !Tracked(s)
      && 1 in CancelAll(s).timers
  {
    var s := Scheduler(Store(Store(map[], a.id, 1), b.id, 2), map[1 := TimerTask(a, d1)][2 := TimerTask(b, d2)], 3);
    assert s.ids == if a.id == ProtoKey then map[] else map[a.id := 2];
    assert 1 !in s.ids.Values;
  }

  /** The scheduler and the card read a time differently: `"HH:"` gets a
      reminder at minute 0 (`Number('')` is 0) yet the card shows it as an
      invalid time (`parseInt('')` is NaN). */
  lemma HourOnlyScheduledButShownInvalid(h: nat, nowMs: int)
    requires h < 100
    ensures DelayMs(Text(Pad2(h) + ":"), nowMs) == DelayMs(Text(HhMm(h, 0)), nowMs)
    ensures MedicineCard.FormatTime(Text(Pad2(h) + ":")) == MedicineCard.InvalidTime
  {
    EmptyMinuteReadsZero(h, nowMs);
    MedicineCard.HourOnlyInvalid(h);
  }
}
