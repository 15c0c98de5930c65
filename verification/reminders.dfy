/** The reminder scheduler: a record from medicine id to the handle of a
    pending one-shot timer, the host's live timers, and what a firing
    produces. "Now" is milliseconds after local midnight; a timer handle is
    an abstract token drawn from a counter, as the host hands out fresh
    handles. */
module Reminders {
  import opened Types
  import opened JsText
  import Tones

  type Handle = nat

  const MsPerHour: int := 3_600_000
  const MsPerMinute: int := 60_000

  // ---------------------------------------------------------------------
  // From a time field to a delay

  /** The hour and minute `Number` reads from a time field, or `None` when
      the medicine is skipped before any date arithmetic: the field is not
      a string, is empty, holds no `:`, or either of its first two
      `:`-fields reads as NaN. Fields after the second are ignored. */
  function ClockFields(time: TimeValue): (r: Option<(JsNumber, JsNumber)>)
    ensures r.Some? ==> time.Text? && ':' in time.text
    ensures r.Some? ==> !r.value.0.NaN? && !r.value.1.NaN?
  {
    match time
    case NotText => None
    case Text(s) =>
      if s == [] || ':' !in s then None
      else
        var fields := FirstTwoFields(s);
        var h := StringToNumber(fields.0);
        var m := StringToNumber(fields.1);
        if h.NaN? || m.NaN? then None else Some((h, m))
  }

  /** The largest magnitude of a `Date` time value: 8.64e15 ms either side
      of the epoch. A date past it is invalid. */
  const MaxTimeValue: int := 8_640_000_000_000_000
  const MsPerDay: int := 86_400_000

  /** Today's local midnight lies within the time-value range, and the
      local-to-UTC offset is under a day, so a clock value of magnitude above
      this bound takes the date out of the range whatever today is. */
  const ClipBound: int := 2 * MaxTimeValue + 2 * MsPerDay

  /** The time of day `setHours(h, m, 0, 0)` sets, in ms after midnight:
      each field truncated toward zero, out-of-range values carried over
      linearly. `None` (an invalid date) when either field is infinite, or
      when the clock value is so far from zero that the date leaves the
      time-value range on every day. Between the range and `ClipBound` the
      date's validity depends on today's date, which this model does not
      carry; there the clock value is returned. */
  function ClockMs(h: JsNumber, m: JsNumber): (r: Option<int>)
    ensures r.Some? ==> h.Finite? && m.Finite?
    ensures r.Some? ==> -ClipBound <= r.value <= ClipBound
  {
    if h.Finite? && m.Finite? then
      var at := Truncate(h.value) * MsPerHour + Truncate(m.value) * MsPerMinute;
      if -ClipBound <= at <= ClipBound then Some(at) else None
    else None
  }

  /** The delay computed for a time field at `nowMs`: today's instant at
      that hour and minute minus now; `None` when the field is skipped or
      the delay is NaN. */
  function DelayMs(time: TimeValue, nowMs: int): Option<int>
  {
    DelayFrom(ClockFields(time), nowMs)
  }

  /** The delay from the fields read out of a time field. */
  function DelayFrom(fields: Option<(JsNumber, JsNumber)>, nowMs: int): Option<int>
  {
    if fields.None? then None
    else
      var at := ClockMs(fields.value.0, fields.value.1);
      if at.None? then None else Some(at.value - nowMs)
  }

  /** A timer is installed for a medicine exactly when its delay is a
      number greater than zero. */
  predicate Due(m: Medicine, nowMs: int)
  {
    DelayMs(m.time, nowMs).Some? && DelayMs(m.time, nowMs).value > 0
  }

  // ---------------------------------------------------------------------
  // Scheduler state

  /** A pending one-shot timer: the medicine its callback closes over and
      the delay it was installed with. */
  datatype TimerTask = TimerTask(medicine: Medicine, delayMs: int)

  /** `ids` is the app's record from medicine id to timer handle; `timers`
      are the host's live timers; `nextHandle` is the handle the host
      returns next. */
  datatype Scheduler = Scheduler(ids: map<string, Handle>, timers: map<Handle, TimerTask>, nextHandle: Handle)

  /** The record is a plain object. Assigning to its `__proto__` key runs
      the setter inherited from the object prototype instead of storing a
      property; that setter ignores a number, so the record is unchanged. */
  const ProtoKey := "__proto__"

  /** `record[id] = handle` on the plain-object record. */
  function Store(ids: map<string, Handle>, id: string, h: Handle): map<string, Handle>
  {
    if id == ProtoKey then ids else ids[id := h]
  }

  /** The state before anything is scheduled. */
  const Idle := Scheduler(map[], map[], 1)

  /** Every handle in use was handed out before `nextHandle`. */
  predicate HandlesBelow(s: Scheduler)
  {
    && (forall h :: h in s.timers ==> h < s.nextHandle)
    && (forall k :: k in s.ids ==> s.ids[k] < s.nextHandle)
  }

  /** Every live timer is reachable from the record, so cancelling the
      record cancels every live timer: no timer is orphaned. */
  predicate Tracked(s: Scheduler)
  {
    forall h :: h in s.timers ==> h in s.ids.Values
  }

  predicate Valid(s: Scheduler)
  {
    HandlesBelow(s) && Tracked(s)
  }

  /** The ids of the medicines in `ms` that are due at `nowMs`. */
  function DueIds(ms: seq<Medicine>, nowMs: int): set<string>
  {
    set m | m in ms && Due(m, nowMs) :: m.id
  }

  /** A timer installed for one of `ms` at `nowMs`, with its delay. */
  predicate InstalledFrom(task: TimerTask, ms: seq<Medicine>, nowMs: int)
  {
    && task.medicine in ms
    && Due(task.medicine, nowMs)
    && task.delayMs == DelayMs(task.medicine.time, nowMs).value
  }

  // ---------------------------------------------------------------------
  // A scheduling pass: each medicine's delay is read, then timers are
  // installed from the delays alone

  /** A medicine together with the delay read from its time field. */
  datatype Pending = Pending(medicine: Medicine, delayMs: Option<int>)

  /** The loop's test: a timer is started exactly when the delay is a
      number greater than zero. */
  predicate Fires(p: Pending)
  {
    p.delayMs.Some? && p.delayMs.value > 0
  }

  /** Each medicine of `ms` with its delay at `nowMs`, in list order. */
  function Plan(ms: seq<Medicine>, nowMs: int): seq<Pending>
  {
    seq(|ms|, i requires 0 <= i < |ms| => Pending(ms[i], DelayMs(ms[i].time, nowMs)))
  }

  /** The ids of the entries of `ps` that fire. */
  function FiringIds(ps: seq<Pending>): set<string>
  {
    set p | p in ps && Fires(p) :: p.medicine.id
  }

  /** How many entries of `ps` fire. */
  function FiringCount(ps: seq<Pending>): (r: nat)
    ensures r <= |ps|
  {
    if ps == [] then 0 else (if Fires(ps[0]) then 1 else 0) + FiringCount(ps[1..])
  }

  /** A timer started for an entry of `ps`, with that entry's delay. */
  predicate StartedFrom(task: TimerTask, ps: seq<Pending>)
  {
    task.delayMs > 0 && Pending(task.medicine, Some(task.delayMs)) in ps
  }

  /** `s` has a live timer for `task` handed out from `from` on. */
  predicate HasTimer(s: Scheduler, from: Handle, task: TimerTask)
  {
    exists h :: h in s.timers && from <= h && s.timers[h] == task
  }

  /** No two entries of `ps` carry the same id. */
  predicate DistinctIds(ps: seq<Pending>)
  {
    forall i, j :: 0 <= i < j < |ps| ==> ps[i].medicine.id != ps[j].medicine.id
  }

  // ---------------------------------------------------------------------
  // Operations

  /** The body of the scheduling loop for one medicine: when its delay is
      positive, a timer is started and its handle stored under the id,
      replacing any handle stored there before; under the id `__proto__`
      nothing is stored. */
  function Install(s: Scheduler, p: Pending): (r: Scheduler)
    ensures !Fires(p) ==> r == s
    ensures Fires(p) ==> var id := p.medicine.id;
      && r.nextHandle == s.nextHandle + 1
      && (id != ProtoKey ==> r.ids.Keys == s.ids.Keys + {id} && r.ids[id] == s.nextHandle)
      && (id == ProtoKey ==> r.ids == s.ids)
      && (forall k :: k in s.ids && k != id ==> r.ids[k] == s.ids[k])
      && r.timers.Keys == s.timers.Keys + {s.nextHandle}
      && r.timers[s.nextHandle] == TimerTask(p.medicine, p.delayMs.value)
      && (forall h :: h in s.timers && h != s.nextHandle ==> r.timers[h] == s.timers[h])
  {
    if Fires(p) then
      Scheduler(
        Store(s.ids, p.medicine.id, s.nextHandle),
        s.timers[s.nextHandle := TimerTask(p.medicine, p.delayMs.value)],
        s.nextHandle + 1)
    else s
  }

  /** The scheduling loop: one fresh handle per firing entry, in order;
      record entries are only added or overwritten, never removed. */
  function InstallAll(s: Scheduler, ps: seq<Pending>): (r: Scheduler)
    ensures r.nextHandle == s.nextHandle + FiringCount(ps)
    ensures s.ids.Keys <= r.ids.Keys
    decreases |ps|
  {
    if ps == [] then s
    else InstallAll(Install(s, ps[0]), ps[1..])
  }

  /** `scheduleNotifications`: install a timer for every due medicine of
      `ms`, in list order. */
  function Schedule(s: Scheduler, ms: seq<Medicine>, nowMs: int): (r: Scheduler)
    ensures s.nextHandle <= r.nextHandle <= s.nextHandle + |ms|
    ensures s.ids.Keys <= r.ids.Keys
  {
    InstallAll(s, Plan(ms, nowMs))
  }

  /** `cancelAllNotifications`: clear the timer of every handle in the
      record (a no-op for one that already fired) and empty the record. */
  function CancelAll(s: Scheduler): (r: Scheduler)
    ensures r.ids == map[] && r.nextHandle == s.nextHandle
    ensures r.timers.Keys == s.timers.Keys - s.ids.Values
    ensures forall h :: h in r.timers ==> r.timers[h] == s.timers[h]
    ensures Tracked(s) ==> r.timers == map[]
  {
    Scheduler(map[], map h | h in s.timers && h !in s.ids.Values :: s.timers[h], s.nextHandle)
  }

  /** A system notification. */
  datatype Notification = Notification(title: string, body: string)

  /** What one firing produces: the tones played and, when permitted, a
      notification. */
  datatype Alert = Alert(tones: seq<Tones.Tone>, notification: Option<Notification>)

  /** "Time for your dose!" */
  const ReminderTitle := "حان وقت جرعتك!"

  /** "Take <name> - <dosage>". */
  function ReminderBody(m: Medicine): string
  {
    "تناول " + m.name + " - " + m.dosage
  }

  /** `x` occurs in `y` at position `i`. */
  predicate OccursAt(x: string, y: string, i: int)
  {
    0 <= i && i + |x| <= |y| && y[i..i + |x|] == x
  }

  /** `x` occurs in `y` as a contiguous piece. */
  predicate IsInfix(x: string, y: string)
  {
    exists i :: 0 <= i <= |y| && OccursAt(x, y, i)
  }

  /** The host runs the callback of live timer `h`: it plays the currently
      selected sound and raises a notification only when permission is
      granted. The timer is spent, but the record entry is left in place. */
  function Fire(s: Scheduler, h: Handle, sound: string, granted: bool): (r: (Scheduler, Alert))
    requires h in s.timers
    ensures r.0.ids == s.ids && r.0.nextHandle == s.nextHandle
    ensures r.0.timers.Keys == s.timers.Keys - {h}
    ensures forall g :: g in r.0.timers ==> r.0.timers[g] == s.timers[g]
    ensures r.1.tones == Tones.Synthesize(sound)
    ensures r.1.notification.Some? <==> granted
    ensures granted ==> var m := s.timers[h].medicine;
      && r.1.notification.value.title == ReminderTitle
      && IsInfix(m.name, r.1.notification.value.body)
      && IsInfix(m.dosage, r.1.notification.value.body)
  {
    var m := s.timers[h].medicine;
    var body := ReminderBody(m);
    assert OccursAt(m.name, body, |"تناول "|);
    assert OccursAt(m.dosage, body, |body| - |m.dosage|);
    var note := if granted then Some(Notification(ReminderTitle, body)) else None;
    (s.(timers := s.timers - {h}), Alert(Tones.Synthesize(sound), note))
  }

  /** The settings screen's preview: the sound alone, no notification. */
  function Preview(sound: string): Alert
  {
    Alert(Tones.Synthesize(sound), None)
  }

  // ---------------------------------------------------------------------
  // Properties

  lemma ClockMsOfNats(h: nat, m: nat)
    requires h * MsPerHour + m * MsPerMinute <= ClipBound
    ensures ClockMs(Finite(h as real), Finite(m as real)) == Some(h * MsPerHour + m * MsPerMinute)
  {
    TruncateOfNat(h);
    TruncateOfNat(m);
  }

  /** The fields read from a time whose first two fields read as `h` and
      `m`. */
  lemma ClockFieldsOf(t: string, hs: string, ms: string, h: nat, m: nat)
    requires ':' in t && FirstTwoFields(t) == (hs, ms)
    requires StringToNumber(hs) == Finite(h as real) && StringToNumber(ms) == Finite(m as real)
    ensures ClockFields(Text(t)) == Some((Finite(h as real), Finite(m as real)))
  {
  }

  /** The delay of a time whose first two fields read as `h` and `m`. */
  lemma DelayOfFields(t: string, hs: string, ms: string, h: nat, m: nat, nowMs: int)
    requires h * MsPerHour + m * MsPerMinute <= ClipBound
    requires ':' in t && FirstTwoFields(t) == (hs, ms)
    requires StringToNumber(hs) == Finite(h as real) && StringToNumber(ms) == Finite(m as real)
    ensures DelayMs(Text(t), nowMs) == Some(h * MsPerHour + m * MsPerMinute - nowMs)
  {
    ClockFieldsOf(t, hs, ms, h, m);
    DelayFromClock(Text(t), h, m, nowMs);
  }

  lemma DelayFromClock(time: TimeValue, h: nat, m: nat, nowMs: int)
    requires h * MsPerHour + m * MsPerMinute <= ClipBound
    requires ClockFields(time) == Some((Finite(h as real), Finite(m as real)))
    ensures DelayMs(time, nowMs) == Some(h * MsPerHour + m * MsPerMinute - nowMs)
  {
    DelayOfNats(h, m, nowMs);
  }

  lemma DelayOfNats(h: nat, m: nat, nowMs: int)
    requires h * MsPerHour + m * MsPerMinute <= ClipBound
    ensures DelayFrom(Some((Finite(h as real), Finite(m as real))), nowMs) == Some(h * MsPerHour + m * MsPerMinute - nowMs)
  {
    ClockMsOfNats(h, m);
  }

  /** A well-formed `HH:mm` is read back as its hour and minute, and the
      delay is that time of day minus now; hours and minutes past their
      usual range (up to 99) are carried over linearly. */
  lemma DelayOfHhMm(h: nat, m: nat, nowMs: int)
    requires h < 100 && m < 100
    ensures ClockFields(Text(HhMm(h, m))) == Some((Finite(h as real), Finite(m as real)))
    ensures DelayMs(Text(HhMm(h, m)), nowMs) == Some(h * MsPerHour + m * MsPerMinute - nowMs)
  {
    HhMmFields(h, m);
    Pad2Number(h);
    Pad2Number(m);
    ClockFieldsOf(HhMm(h, m), Pad2(h), Pad2(m), h, m);
    DelayOfFields(HhMm(h, m), Pad2(h), Pad2(m), h, m, nowMs);
  }

  /** No next-day rollover: a time of day at or before now is never due;
      one after now always is. */
  lemma DueIffLater(h: nat, m: nat, nowMs: int, med: Medicine)
    requires h < 100 && m < 100 && med.time == Text(HhMm(h, m))
    ensures Due(med, nowMs) <==> h * MsPerHour + m * MsPerMinute > nowMs
  {
    DelayOfHhMm(h, m, nowMs);
  }

  /** `Number('')` is 0, so `"HH:"` is scheduled exactly like `"HH:00"`. */
  lemma EmptyMinuteReadsZero(h: nat, nowMs: int)
    requires h < 100
    ensures DelayMs(Text(Pad2(h) + ":"), nowMs) == DelayMs(Text(HhMm(h, 0)), nowMs)
  {
    var t := Pad2(h) + ":";
    var zero: nat := 0;
    assert !IsDigit(':');
    assert t + [] + [] == t;
    FieldsOf(Pad2(h), [], []);
    Pad2Number(h);
    EmptyNumber();
    ClockFieldsOf(t, Pad2(h), [], h, zero);
    HhMmFields(h, zero);
    Pad2Number(zero);
    ClockFieldsOf(HhMm(h, zero), Pad2(h), Pad2(zero), h, zero);
  }

  /** Only the first two `:`-fields are read: anything after a third `:`
      does not change the delay. */
  lemma ExtraFieldsIgnored(h: nat, m: nat, tail: string, nowMs: int)
    requires h < 100 && m < 100
    ensures DelayMs(Text(HhMm(h, m) + ":" + tail), nowMs) == DelayMs(Text(HhMm(h, m)), nowMs)
  {
    var t := HhMm(h, m) + ":" + tail;
    assert !IsDigit(':');
    assert Pad2(h) + ":" + Pad2(m) + (":" + tail) == t;
    FieldsOf(Pad2(h), Pad2(m), ":" + tail);
    Pad2Number(h);
    Pad2Number(m);
    DelayOfFields(t, Pad2(h), Pad2(m), h, m, nowMs);
    DelayOfHhMm(h, m, nowMs);
  }

  /** A time whose clock value is beyond `ClipBound` makes an invalid date
      and never gets a timer, however late it is in the day. */
  lemma FarClockNeverDue(med: Medicine, h: nat, m: nat, nowMs: int)
    requires ClockFields(med.time) == Some((Finite(h as real), Finite(m as real)))
    requires h * MsPerHour + m * MsPerMinute > ClipBound
    ensures DelayMs(med.time, nowMs).None? && !Due(med, nowMs)
  {
    TruncateOfNat(h);
    TruncateOfNat(m);
  }

  /** An hour of five billion or more, such as `"9000000000:00"`, takes the
      date out of the time-value range: no timer. */
  lemma HugeHourNeverDue(h: nat, med: Medicine, nowMs: int)
    requires h >= 5_000_000_000 && med.time == Text(NatToString(h) + ":" + Pad2(0))
    ensures !Due(med, nowMs)
  {
    var hs, zs := NatToString(h), Pad2(0);
    assert ':' !in hs && ':' !in zs by {
      assert !IsDigit(':');
    }
    assert hs + ":" + zs + [] == hs + ":" + zs;
    FieldsOf(hs, zs, []);
    DigitsNumber(hs);
    Pad2Number(0);
    var zero: nat := 0;
    ClockFieldsOf(hs + ":" + zs, hs, zs, h, zero);
    FarClockNeverDue(med, h, zero, nowMs);
  }

  /** A time field that is not a string, holds no `:`, or has a NaN field
      never gets a timer. */
  lemma MalformedNeverDue(m: Medicine, nowMs: int)
    requires m.time.NotText? || ':' !in m.time.text
      || StringToNumber(FirstTwoFields(m.time.text).0).NaN?
      || StringToNumber(FirstTwoFields(m.time.text).1).NaN?
    ensures !Due(m, nowMs)
  {
  }

  /** A medicine whose delay is not positive is absent from the ids a
      scheduling pass installs, when its id is carried by no other due
      medicine. */
  lemma {:induction false} NotDueNotInstalled(ms: seq<Medicine>, m: Medicine, nowMs: int)
    requires m in ms && !Due(m, nowMs) && UniqueIds(ms)
    ensures m.id !in DueIds(ms, nowMs)
  {
    forall m' | m' in ms && Due(m', nowMs)
      ensures m'.id != m.id
    {
      var i :| 0 <= i < |ms| && ms[i] == m;
      var j :| 0 <= j < |ms| && ms[j] == m';
      assert i != j;
    }
  }

  // The loop over read delays

  lemma FiringIdsCons(ps: seq<Pending>)
    requires ps != []
    ensures FiringIds(ps) == FiringIds(ps[1..]) + (if Fires(ps[0]) then {ps[0].medicine.id} else {})
    ensures forall p :: p in ps[1..] ==> p in ps
  {
    assert ps == [ps[0]] + ps[1..];
  }

  /** An id gets an entry exactly when one of its entries fires, except
      `__proto__`, which never gets one. */
  lemma {:induction false} InstallAllIds(s: Scheduler, ps: seq<Pending>)
    ensures InstallAll(s, ps).ids.Keys == s.ids.Keys + (FiringIds(ps) - {ProtoKey})
    decreases |ps|
  {
    if ps == [] {
      assert FiringIds(ps) == {};
    } else {
      InstallAllIds(Install(s, ps[0]), ps[1..]);
      FiringIdsCons(ps);
    }
  }

  /** The loop keeps every handle below the counter. */
  lemma {:induction false} InstallAllKeepsHandlesBelow(s: Scheduler, ps: seq<Pending>)
    requires HandlesBelow(s)
    ensures HandlesBelow(InstallAll(s, ps))
    decreases |ps|
  {
    if ps != [] {
      var s1 := Install(s, ps[0]);
      assert HandlesBelow(s1);
      InstallAllKeepsHandlesBelow(s1, ps[1..]);
    }
  }

  /** The loop cancels nothing: every live timer stays live, unchanged. */
  lemma {:induction false} InstallAllKeepsTimers(s: Scheduler, ps: seq<Pending>)
    requires HandlesBelow(s)
    ensures forall h :: h in s.timers ==> h in InstallAll(s, ps).timers && InstallAll(s, ps).timers[h] == s.timers[h]
    decreases |ps|
  {
    if ps != [] {
      var s1 := Install(s, ps[0]);
      assert HandlesBelow(s1);
      InstallAllKeepsTimers(s1, ps[1..]);
    }
  }

  /** Every timer the loop adds has a fresh handle and was started for an
      entry that fires, with that entry's delay. */
  lemma {:induction false} InstallAllNewTimers(s: Scheduler, ps: seq<Pending>)
    requires HandlesBelow(s)
    ensures var r := InstallAll(s, ps);
      forall h :: h in r.timers && h !in s.timers ==> s.nextHandle <= h && StartedFrom(r.timers[h], ps)
    decreases |ps|
  {
    if ps != [] {
      var r := InstallAll(s, ps);
      var s1 := Install(s, ps[0]);
      assert HandlesBelow(s1);
      InstallAllNewTimers(s1, ps[1..]);
      FiringIdsCons(ps);
      forall h | h in r.timers && h !in s.timers
        ensures s.nextHandle <= h && StartedFrom(r.timers[h], ps)
      {
        if h in s1.timers {
          InstallAllKeepsTimers(s1, ps[1..]);
          assert h == s.nextHandle && r.timers[h] == s1.timers[h];
        }
      }
    }
  }

  /** Every firing entry gets a live timer with a fresh handle, started
      with its medicine and delay, whatever its id. */
  lemma {:induction false} InstallAllStartsFiring(s: Scheduler, ps: seq<Pending>)
    requires HandlesBelow(s)
    ensures forall p :: p in ps && Fires(p) ==>
      HasTimer(InstallAll(s, ps), s.nextHandle, TimerTask(p.medicine, p.delayMs.value))
    decreases |ps|
  {
    if ps != [] {
      var r := InstallAll(s, ps);
      var s1 := Install(s, ps[0]);
      assert HandlesBelow(s1);
      InstallAllStartsFiring(s1, ps[1..]);
      InstallAllKeepsTimers(s1, ps[1..]);
      forall p | p in ps && Fires(p)
        ensures HasTimer(r, s.nextHandle, TimerTask(p.medicine, p.delayMs.value))
      {
        if p == ps[0] {
          assert s.nextHandle in s1.timers;
          assert r.timers[s.nextHandle] == TimerTask(p.medicine, p.delayMs.value);
        } else {
          assert p in ps[1..];
          assert HasTimer(r, s1.nextHandle, TimerTask(p.medicine, p.delayMs.value));
        }
      }
    }
  }

  /** An id no firing entry carries keeps the handle it had. */
  lemma {:induction false} InstallAllKeepsOtherIds(s: Scheduler, ps: seq<Pending>)
    ensures forall k :: k in s.ids && k !in FiringIds(ps) ==> InstallAll(s, ps).ids[k] == s.ids[k]
    decreases |ps|
  {
    if ps != [] {
      InstallAllKeepsOtherIds(Install(s, ps[0]), ps[1..]);
      FiringIdsCons(ps);
    }
  }

  /** Every firing id other than `__proto__` ends up holding a handle
      handed out by this pass, whose live timer is for a medicine with that
      id. */
  lemma {:induction false} InstallAllCoversFiring(s: Scheduler, ps: seq<Pending>)
    requires HandlesBelow(s)
    ensures var r := InstallAll(s, ps);
      forall k :: k in FiringIds(ps) && k != ProtoKey ==>
        k in r.ids && s.nextHandle <= r.ids[k] && r.ids[k] in r.timers && r.timers[r.ids[k]].medicine.id == k
    decreases |ps|
  {
    if ps != [] {
      var r := InstallAll(s, ps);
      var s1 := Install(s, ps[0]);
      assert HandlesBelow(s1);
      InstallAllCoversFiring(s1, ps[1..]);
      FiringIdsCons(ps);
      forall k | k in FiringIds(ps) && k != ProtoKey
        ensures k in r.ids && s.nextHandle <= r.ids[k] && r.ids[k] in r.timers && r.timers[r.ids[k]].medicine.id == k
      {
        if k !in FiringIds(ps[1..]) {
          assert k == ps[0].medicine.id && Fires(ps[0]);
          InstallAllKeepsOtherIds(s1, ps[1..]);
          InstallAllKeepsTimers(s1, ps[1..]);
          assert r.ids[k] == s.nextHandle && r.timers[s.nextHandle] == s1.timers[s.nextHandle];
        }
      }
    }
  }

  /** The loop over entries with distinct ids not yet in the record, none
      of the firing ones `__proto__`, orphans no timer. */
  lemma {:induction false} InstallAllKeepsTracked(s: Scheduler, ps: seq<Pending>)
    requires Tracked(s) && DistinctIds(ps)
    requires forall p :: p in ps ==> p.medicine.id !in s.ids
    requires ProtoKey !in FiringIds(ps)
    ensures Tracked(InstallAll(s, ps))
    decreases |ps|
  {
    if ps != [] {
      FiringIdsCons(ps);
      var s1 := Install(s, ps[0]);
      assert Tracked(s1) by {
        if Fires(ps[0]) {
          forall h | h in s1.timers
            ensures h in s1.ids.Values
          {
            if h == s.nextHandle {
              assert s1.ids[ps[0].medicine.id] == h;
            } else {
              var k :| k in s.ids && s.ids[k] == h;
              assert k != ps[0].medicine.id;
              assert s1.ids[k] == h;
            }
          }
        }
      }
      forall p | p in ps[1..]
        ensures p.medicine.id !in s1.ids
      {
        var i :| 1 <= i < |ps| && ps[i] == p;
        assert ps[0].medicine.id != ps[i].medicine.id;
      }
      assert DistinctIds(ps[1..]) by {
        forall i, j | 0 <= i < j < |ps[1..]|
          ensures ps[1..][i].medicine.id != ps[1..][j].medicine.id
        {
          assert ps[i + 1].medicine.id != ps[j + 1].medicine.id;
        }
      }
      InstallAllKeepsTracked(s1, ps[1..]);
    }
  }

  // From the read delays back to the medicines

  /** Every entry of the plan is one of the medicines with its own delay. */
  lemma PlanEntry(ms: seq<Medicine>, nowMs: int, p: Pending)
    requires p in Plan(ms, nowMs)
    ensures p.medicine in ms && p.delayMs == DelayMs(p.medicine.time, nowMs)
    ensures Fires(p) <==> Due(p.medicine, nowMs)
  {
    var i :| 0 <= i < |Plan(ms, nowMs)| && Plan(ms, nowMs)[i] == p;
    assert p.medicine == ms[i];
  }

  /** The entries that fire are exactly the due medicines. */
  lemma PlanFiringIds(ms: seq<Medicine>, nowMs: int)
    ensures FiringIds(Plan(ms, nowMs)) == DueIds(ms, nowMs)
  {
    var ps := Plan(ms, nowMs);
    forall k | k in FiringIds(ps) ensures k in DueIds(ms, nowMs)
    {
      var p :| p in ps && Fires(p) && p.medicine.id == k;
      PlanEntry(ms, nowMs, p);
    }
    forall k | k in DueIds(ms, nowMs) ensures k in FiringIds(ps)
    {
      var m :| m in ms && Due(m, nowMs) && m.id == k;
      var i :| 0 <= i < |ms| && ms[i] == m;
      assert ps[i] in ps && ps[i].medicine == m;
    }
  }

  // The scheduling pass

  /** An id other than `__proto__` gets an entry exactly when one of its
      medicines is due. */
  lemma ScheduleIds(s: Scheduler, ms: seq<Medicine>, nowMs: int)
    ensures Schedule(s, ms, nowMs).ids.Keys == s.ids.Keys + (DueIds(ms, nowMs) - {ProtoKey})
  {
    InstallAllIds(s, Plan(ms, nowMs));
    PlanFiringIds(ms, nowMs);
  }

  /** Scheduling over a list whose ids are unique and not yet in the
      record, with no due medicine under `__proto__`, orphans no timer. */
  lemma ScheduleKeepsTracked(s: Scheduler, ms: seq<Medicine>, nowMs: int)
    requires Tracked(s) && UniqueIds(ms)
    requires forall m :: m in ms ==> m.id !in s.ids
    requires ProtoKey !in DueIds(ms, nowMs)
    ensures Tracked(Schedule(s, ms, nowMs))
  {
    var ps := Plan(ms, nowMs);
    PlanFiringIds(ms, nowMs);
    assert DistinctIds(ps) by {
      forall i, j | 0 <= i < j < |ps|
        ensures ps[i].medicine.id != ps[j].medicine.id
      {
        assert ps[i].medicine == ms[i] && ps[j].medicine == ms[j];
      }
    }
    forall p | p in ps ensures p.medicine.id !in s.ids
    {
      PlanEntry(ms, nowMs, p);
    }
    InstallAllKeepsTracked(s, ps);
  }

  /** Scheduling keeps every handle below the counter. */
  lemma ScheduleKeepsHandlesBelow(s: Scheduler, ms: seq<Medicine>, nowMs: int)
    requires HandlesBelow(s)
    ensures HandlesBelow(Schedule(s, ms, nowMs))
  {
    InstallAllKeepsHandlesBelow(s, Plan(ms, nowMs));
  }

  /** Scheduling cancels nothing: every live timer stays live, unchanged. */
  lemma ScheduleKeepsTimers(s: Scheduler, ms: seq<Medicine>, nowMs: int)
    requires HandlesBelow(s)
    ensures forall h :: h in s.timers ==> h in Schedule(s, ms, nowMs).timers && Schedule(s, ms, nowMs).timers[h] == s.timers[h]
  {
    InstallAllKeepsTimers(s, Plan(ms, nowMs));
  }

  /** Every timer a scheduling pass adds has a fresh handle and was
      installed for a due medicine of the list, with that medicine's delay. */
  lemma ScheduleNewTimers(s: Scheduler, ms: seq<Medicine>, nowMs: int)
    requires HandlesBelow(s)
    ensures var r := Schedule(s, ms, nowMs);
      forall h :: h in r.timers && h !in s.timers ==> s.nextHandle <= h && InstalledFrom(r.timers[h], ms, nowMs)
  {
    var r := Schedule(s, ms, nowMs);
    var ps := Plan(ms, nowMs);
    InstallAllNewTimers(s, ps);
    forall h | h in r.timers && h !in s.timers
      ensures s.nextHandle <= h && InstalledFrom(r.timers[h], ms, nowMs)
    {
      var task := r.timers[h];
      PlanEntry(ms, nowMs, Pending(task.medicine, Some(task.delayMs)));
    }
  }

  /** An id no due medicine carries keeps the handle it had. */
  lemma ScheduleKeepsOtherIds(s: Scheduler, ms: seq<Medicine>, nowMs: int)
    ensures forall k :: k in s.ids && k !in DueIds(ms, nowMs) ==> Schedule(s, ms, nowMs).ids[k] == s.ids[k]
  {
    InstallAllKeepsOtherIds(s, Plan(ms, nowMs));
    PlanFiringIds(ms, nowMs);
  }

  /** Every due id other than `__proto__` ends up holding a handle handed
      out by this pass, whose live timer is for a medicine with that id. */
  lemma ScheduleCoversDue(s: Scheduler, ms: seq<Medicine>, nowMs: int)
    requires HandlesBelow(s)
    ensures var r := Schedule(s, ms, nowMs);
      forall k :: k in DueIds(ms, nowMs) && k != ProtoKey ==>
        k in r.ids && s.nextHandle <= r.ids[k] && r.ids[k] in r.timers && r.timers[r.ids[k]].medicine.id == k
  {
    InstallAllCoversFiring(s, Plan(ms, nowMs));
    PlanFiringIds(ms, nowMs);
  }

  /** Every due medicine, whatever its id, gets a live timer with a fresh
      handle, started with its delay. */
  lemma ScheduleStartsDue(s: Scheduler, ms: seq<Medicine>, nowMs: int, m: Medicine)
    requires HandlesBelow(s) && m in ms && Due(m, nowMs)
    ensures HasTimer(Schedule(s, ms, nowMs), s.nextHandle, TimerTask(m, DelayMs(m.time, nowMs).value))
  {
    var ps := Plan(ms, nowMs);
    InstallAllStartsFiring(s, ps);
    var i :| 0 <= i < |ms| && ms[i] == m;
    assert ps[i] == Pending(m, DelayMs(m.time, nowMs));
    assert ps[i] in ps && Fires(ps[i]);
  }

  /** Cancelling all reminders empties the record, is idempotent, and
      stops every live timer of a state that orphans none. */
  lemma CancelAllIdempotent(s: Scheduler)
    ensures CancelAll(CancelAll(s)) == CancelAll(s)
    ensures Valid(s) ==> Valid(CancelAll(s))
  {
  }

  /** Firing keeps the scheduler's invariant. */
  lemma FireKeepsValid(s: Scheduler, h: Handle, sound: string, granted: bool)
    requires h in s.timers && Valid(s)
    ensures Valid(Fire(s, h, sound, granted).0)
  {
  }

  /** The preview plays exactly the tones a firing plays for the same sound
      and raises no notification. */
  lemma PreviewMatchesFire(s: Scheduler, h: Handle, sound: string, granted: bool)
    requires h in s.timers
    ensures Preview(sound).tones == Fire(s, h, sound, granted).1.tones
    ensures Preview(sound).notification.None?
  {
  }
}
