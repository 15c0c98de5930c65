# Medication reminders: a Dafny model

This project models the core of a small medication-reminder web app. The
user keeps a list of medicines (name, dosage, time of day as `HH:mm`, taken
flag, relation to food). Whenever the list changes, the app cancels every
recorded reminder and schedules one one-shot timer for each untaken medicine
whose time is still ahead today. When a timer fires, the app plays the
selected alert sound and, if permitted, raises a system notification.

The model is pure Dafny: datatypes and functions, with lemmas relating them.

| module | file | models |
|---|---|---|
| `Types` | `types.dfy` | the medicine record, the form data and the four sound identifiers |
| `JsText` | `js_text.dfy` | the JavaScript conversions the app relies on: `split(':')` read for two fields, `Number(string)`, `parseInt(s, 10)`, truncation toward zero, decimal rendering |
| `Tones` | `tones.dfy` | the sound synthesizer, as the list of tones (oscillator, frequency, start, stop, gain breakpoints) each recipe starts |
| `Reminders` | `reminders.dfy` | the scheduler: from a time field to a delay, the install loop, cancel-all, and what a firing produces |
| `Medicines` | `medicines.dfy` | the add, update, toggle and delete transitions of the list |
| `MedicineList` | `medicine_list.dfy` | the list screen: the stable sort by time and the empty state |
| `MedicineCard` | `medicine_card.dfy` | the card's time display and food label |
| `App` | `app.dfy` | the app shell: the cancel-then-schedule effect, the add/edit modal, saving, toggling and deleting |

The scheduler state has three parts:
- `ids`: the app's record from medicine id to timer handle;
- `timers`: the host's live timers, keyed by handle;
- `nextHandle`: the next handle the host hands out.

Keeping the record and the live timers apart lets the model say when a
timer is orphaned, that is live but unreachable from the record. "Now" is a
parameter, in milliseconds after local midnight. A scheduling pass first
reads every medicine's delay (`Plan`) and then installs timers from those
delays alone (`InstallAll`). The install-loop lemmas are stated over the
read delays; the `Schedule*` lemmas carry them back to the medicines.

Behaviour of the code worth noting:
- A fired callback does not remove its record entry. The entry stays until
  the next cancel-all.
- A medicine id has at most one live timer only while ids are unique. When
  two due medicines share an id, the second overwrites the first's record
  entry, so the first timer stays live with no entry. Cancel-all only stops
  recorded handles, so no later rebuild ever stops it
  (`App.SharedIdOrphanNeverCleared`, `App.OrphanSurvivesRebuilds`).
- The record is a plain object, so `record["__proto__"] = handle` stores
  nothing. A medicine whose id is `__proto__` gets a timer that no
  cancel-all reaches (`App.ProtoIdOrphansTimer`). Generated ids never take
  that form; only a stored list can carry it. The invariant `App.AppValid`
  therefore excludes that id.
- Hours and minutes are not range-checked. A field such as `"25"` or
  `"90"` is carried over linearly, as `setHours` does. An hour so large that
  the date leaves the time-value range gets no timer
  (`Reminders.HugeHourNeverDue`).
- The scheduler reads fields with `Number` and the card reads them with
  `parseInt`, so they can disagree. `App.HourOnlyScheduledButShownInvalid`
  shows that `"HH:"` is scheduled like `"HH:00"` but displayed as an invalid
  time.

## Model

| member | source | states |
|---|---|---|
| Types.SoundNameRoundTrip | types.ts:11 | the four sound identifiers and the four sounds correspond one to one; no other identifier names a sound |
| JsText.IntToString | components/MedicineCard.tsx:25-26 | the hour shown on a card is a `-` exactly for a negative hour, followed by canonical decimal digits (no leading zero) whose value is the hour's magnitude, and `parseInt` reads it back as the same integer |
| JsText.Truncate | hooks/useNotifications.ts:173-174 | `setHours` truncates each field toward zero: the result is within one of the value, on the zero side |
| JsText.FieldsOf | hooks/useNotifications.ts:170 | the first two `split(':')` fields of `a:b`, followed by nothing or by a further `:`-field, are `a` and `b` |
| JsText.FirstTwoFields | hooks/useNotifications.ts:170 | the first two `split(':')` fields of a string holding `:` contain no `:`; the first is the text before the first colon, the second the text after it up to the next colon or the end |
| JsText.EmptyNumber | hooks/useNotifications.ts:170 | `Number` of the empty field is 0 |
| JsText.ParseIntOf | components/MedicineCard.tsx:17-18 | `parseInt` of leading white space, an optional `+` or `-`, a run of digits and a rest that does not start with a digit is the run's decimal value, negated exactly under `-` |
| JsText.HhMmFields | hooks/useNotifications.ts:170 | splitting a well-formed `HH:mm` at `:` gives back its two-digit hour and minute fields |
| JsText.DigitsNumber | hooks/useNotifications.ts:170 | `Number` of a non-empty digit string is its decimal value |
| JsText.DigitsThenParse | components/MedicineCard.tsx:17-18 | `parseInt` reads the leading digits and ignores everything from the first non-digit on |
| Reminders.ClockFields | hooks/useNotifications.ts:166-171 | a medicine yields fields only when its time is a string holding `:` and neither of its first two fields is NaN |
| Reminders.ClockMs | hooks/useNotifications.ts:173-176 | `setHours` gives an instant only when both fields are finite, and then within the bound past which the date is invalid on every day |
| Reminders.ClockMsOfNats | hooks/useNotifications.ts:173-176 | whole hours and minutes set the time of day `h` hours and `m` minutes after midnight, carried over linearly |
| Reminders.DelayOfFields | hooks/useNotifications.ts:170-176 | a time whose first two fields read as `h` and `m` has delay `h` hours plus `m` minutes minus now |
| Reminders.DelayOfHhMm | hooks/useNotifications.ts:170-176 | a well-formed `HH:mm` is read back as its hour and minute, and its delay is that time of day in ms minus now |
| Reminders.DueIffLater | hooks/useNotifications.ts:173-178 | an `HH:mm` medicine gets a timer exactly when its time of day is strictly later than now; there is no next-day rollover |
| Reminders.EmptyMinuteReadsZero | hooks/useNotifications.ts:170-176 | `Number('')` is 0, so `"HH:"` gets exactly the delay of `"HH:00"` |
| Reminders.ExtraFieldsIgnored | hooks/useNotifications.ts:170 | text after a second `:` does not change the delay |
| Reminders.MalformedNeverDue | hooks/useNotifications.ts:166-171 | a non-string time, a time without `:`, or a NaN hour or minute field never gets a timer |
| Reminders.FarClockNeverDue | hooks/useNotifications.ts:173-178 | fields whose time of day lies past the date range on every day give no delay and no timer |
| Reminders.HugeHourNeverDue | hooks/useNotifications.ts:173-178 | an hour field of five billion or more, as in `"9000000000:00"`, never gets a timer |
| Reminders.Install | hooks/useNotifications.ts:178-190 | a non-firing entry changes nothing; a firing one takes the next handle and starts one timer with its medicine and delay. It records the handle under its id over any previous entry, except under `__proto__`, where the plain-object record stores nothing. Every other entry and timer stays as it was |
| Reminders.InstallAll | hooks/useNotifications.ts:165-191 | the loop uses one fresh handle per entry whose delay is positive, and no record entry is removed |
| Reminders.InstallAllIds | hooks/useNotifications.ts:178-190 | after the loop the record's ids are the previous ids plus the ids of the entries that fire, `__proto__` excepted |
| Reminders.InstallAllKeepsHandlesBelow | hooks/useNotifications.ts:179-189 | every handle in use, recorded or live, stays below the next handle |
| Reminders.InstallAllKeepsTimers | hooks/useNotifications.ts:178-190 | the loop cancels no timer: every live timer stays live and unchanged |
| Reminders.InstallAllNewTimers | hooks/useNotifications.ts:178-190 | every timer the loop adds has a fresh handle and was started for an entry that fires, with that entry's delay |
| Reminders.InstallAllStartsFiring | hooks/useNotifications.ts:178-190 | every entry that fires, whatever its id, gets a live timer with a fresh handle, its medicine and its delay |
| Reminders.InstallAllKeepsOtherIds | hooks/useNotifications.ts:189 | an id that no firing entry carries keeps its previous handle |
| Reminders.InstallAllCoversFiring | hooks/useNotifications.ts:178-190 | every firing id other than `__proto__` ends up mapped to a fresh handle whose live timer is for a medicine with that id |
| Reminders.InstallAllKeepsTracked | hooks/useNotifications.ts:178-190 | over entries with distinct ids not already recorded, none of the firing ones `__proto__`, the loop leaves no live timer outside the record |
| Reminders.PlanEntry | hooks/useNotifications.ts:165-178 | each read entry is one of the medicines with its own delay, and it fires exactly when that medicine is due |
| Reminders.PlanFiringIds | hooks/useNotifications.ts:165-178 | the ids of the entries that fire are exactly the ids of the due medicines |
| Reminders.Schedule | hooks/useNotifications.ts:162-192 | scheduling hands out at most one handle per medicine and removes no id from the record |
| Reminders.ScheduleIds | hooks/useNotifications.ts:162-192 | an id other than `__proto__` has an entry after scheduling exactly when it had one before or one of its medicines is due |
| Reminders.ScheduleKeepsTracked | hooks/useNotifications.ts:162-192 | with unique ids not already recorded and no due medicine under `__proto__`, scheduling orphans no timer |
| Reminders.ScheduleKeepsHandlesBelow | hooks/useNotifications.ts:162-192 | scheduling keeps every handle in use below the next handle |
| Reminders.ScheduleKeepsTimers | hooks/useNotifications.ts:162-192 | scheduling cancels nothing and changes no live timer |
| Reminders.ScheduleNewTimers | hooks/useNotifications.ts:162-192 | every timer scheduling adds has a fresh handle and belongs to a due medicine of the list, with that medicine's delay |
| Reminders.ScheduleKeepsOtherIds | hooks/useNotifications.ts:162-192 | an id that no due medicine carries keeps its previous handle |
| Reminders.ScheduleCoversDue | hooks/useNotifications.ts:162-192 | every due id other than `__proto__` ends up mapped to a fresh handle whose live timer is for a medicine with that id |
| Reminders.ScheduleStartsDue | hooks/useNotifications.ts:162-192 | every due medicine, whatever its id, gets a live timer with a fresh handle and its delay |
| Reminders.NotDueNotInstalled | hooks/useNotifications.ts:178 | with unique ids, a medicine that is not due is not among the due ids, so scheduling gives it no record entry |
| Reminders.CancelAll | hooks/useNotifications.ts:153-160 | cancel-all empties the record, stops exactly the recorded handles' timers and leaves other timers unchanged; with no orphans, no timer stays live |
| Reminders.CancelAllIdempotent | hooks/useNotifications.ts:153-160 | cancelling twice is cancelling once, and the scheduler invariant is kept |
| Reminders.Fire | hooks/useNotifications.ts:179-188 | a firing spends its timer and leaves the record alone. It plays the currently selected sound. It raises a notification exactly when permission is granted, titled with the fixed title, with a body that contains the medicine's name and dosage |
| Reminders.FireKeepsValid | hooks/useNotifications.ts:179-188 | a firing keeps the scheduler invariant |
| Reminders.PreviewMatchesFire | hooks/useNotifications.ts:194 | the settings preview plays exactly the tones a firing plays for the same sound and raises no notification |
| Tones.OscillatorWellShaped | hooks/useNotifications.ts:32-68 | with a duration of at least 0.1 s, the helper's tone has the given frequency and wave, starts at the given time and stops the duration later, starts before it stops, its gain is set to 0 at the start, and its breakpoints are in time order within the tone, the last one at the stop; a beep ramps to 0.5 in 0.05 s, holds, and ramps back to 0 over its last 0.05 s |
| Tones.AlarmTable | hooks/useNotifications.ts:130-141 | any identifier other than chime, digital and gentle plays 20 triangle beeps at 880 Hz, 0.2 s long, at seconds `i` and `i + 0.3` |
| Tones.ChimeTable | hooks/useNotifications.ts:70-94 | the chime starts 8 sine tones, pairs at `2.5 i` s of 523.25 Hz and 1046.5 Hz, each 2 s long, peaking at 0.5 after 0.05 s and at 0.3 after 0.1 s respectively |
| Tones.DigitalTable | hooks/useNotifications.ts:96-107 | the digital sound starts 30 square beeps of 0.15 s, three per second at offsets 0, 0.2 and 0.4 s, at 600, 800 and 600 Hz |
| Tones.GentleTable | hooks/useNotifications.ts:109-128 | the gentle sound starts 6 tones, pairs at `3.3 i` s of a 220 Hz triangle and a 329.63 Hz sine, swelling linearly to 0.5 and 0.3 at half the swell and back to 0 |
| Tones.SynthesizeCounts | hooks/useNotifications.ts:70-141 | the identifiers of the alarm, chime, digital and gentle sounds give 20, 8, 30 and 6 tones, and any identifier naming no sound plays the alarm |
| Tones.Synthesize | hooks/useNotifications.ts:70-141 | every tone of every sound, known or not, is well shaped and starts and stops within the 10-second alert |
| Medicines.Add | hooks/useMedicines.ts:25-32 | adding appends one medicine built from the form with the fresh id and not taken; the old list is a prefix, the ids grow by exactly the fresh id, and unique ids stay unique |
| Medicines.Update | hooks/useMedicines.ts:34-38 | updating keeps length, ids and taken flags; it overwrites the form's fields on exactly the medicines with the id and leaves the others equal |
| Medicines.Toggle | hooks/useMedicines.ts:40-46 | toggling keeps length and flips `taken` on exactly the medicines with the id |
| Medicines.Delete | hooks/useMedicines.ts:48-50 | deleting keeps exactly the medicines whose id differs |
| Medicines.DeleteLength | hooks/useMedicines.ts:48-50 | deleting removes one entry per medicine carrying the id |
| Medicines.DeleteAppend | hooks/useMedicines.ts:48-50 | deleting distributes over concatenation, so survivors keep their order |
| Medicines.DeleteAbsent | hooks/useMedicines.ts:48-50 | deleting an id that no medicine carries changes nothing |
| Medicines.AddThenDelete | hooks/useMedicines.ts:25-50 | adding a medicine and then deleting its id restores the list |
| Medicines.DeleteIdempotent | hooks/useMedicines.ts:48-50 | deleting twice is deleting once, and the id set loses exactly the deleted id |
| Medicines.DeleteKeepsUnique | hooks/useMedicines.ts:48-50 | deleting keeps unique ids unique |
| Medicines.ToggleTwice | hooks/useMedicines.ts:40-46 | toggling the same id twice restores the list |
| Medicines.ToggleKeepsIds | hooks/useMedicines.ts:40-46 | toggling keeps the id set and unique ids |
| Medicines.UpdateIdempotent | hooks/useMedicines.ts:34-38 | updating twice with the same fields is updating once, and updating an id that no medicine carries changes nothing |
| Medicines.UpdateKeepsIds | hooks/useMedicines.ts:34-38 | updating keeps the id set and unique ids |
| MedicineList.SortByTime | components/MedicineList.tsx:16-18 | the sorted list is a permutation of the list; a list of at most one medicine comes back as is, and a list of string times comes back ordered by time |
| MedicineList.InsertSorted | components/MedicineList.tsx:17 | inserting into a list sorted by time keeps it sorted |
| MedicineList.SortStable | components/MedicineList.tsx:16-18 | the sort is stable: medicines with the same time keep their relative order |
| MedicineList.SortSortedIsIdentity | components/MedicineList.tsx:16-18 | sorting a list already ordered by time changes nothing |
| MedicineList.SortedEqual | components/MedicineList.tsx:16-18 | two time-ordered lists that agree on the medicines at every time are equal |
| MedicineList.Render | components/MedicineList.tsx:16-36 | the empty state shows exactly when the list is empty; otherwise the cards are the list's medicines, a single medicine as is and string times ordered by time |
| MedicineList.SingleUnsetCard | components/MedicineList.tsx:16-35 | a lone medicine whose time is not a string is rendered as its card, and the card says the time is not set |
| MedicineCard.JsRem12 | components/MedicineCard.tsx:25 | JavaScript's `h % 12` differs from `h` by a multiple of 12 and takes the sign of `h` |
| MedicineCard.Hour12 | components/MedicineCard.tsx:25 | `h % 12 \|\| 12` is congruent to `h` modulo 12 and lies in 1..12 for `h >= 0`; for a negative hour it is 12 or in -11..-1 |
| MedicineCard.ReadTime | components/MedicineCard.tsx:12-22 | a time is not set exactly when it is not a string or has no `:`; it is invalid when `parseInt` fails on the first or second field; otherwise it is the parsed hour with the raw minute field |
| MedicineCard.ClockText | components/MedicineCard.tsx:24-26 | the clock display holds a `:`, so it is never one of the two fixed messages |
| MedicineCard.FormatTime | components/MedicineCard.tsx:12-27 | the "time not set" message shows exactly for an unset time, the "invalid time" message exactly for an invalid one, and a clock display otherwise |
| MedicineCard.FoodRelationText | components/MedicineCard.tsx:29-40 | a label shows exactly for before, after and with food; none for "any" or a missing relation |
| MedicineCard.Hour12RoundTrip | components/MedicineCard.tsx:24-25 | the 12-hour hour and the suffix together give back the hour of the day |
| MedicineCard.FormatHhMm | components/MedicineCard.tsx:12-27 | a well-formed `HH:mm` shows as its 12-hour hour, its minute field as written, and the suffix |
| MedicineCard.DisplayRoundTrip | components/MedicineCard.tsx:12-27 | the display of a time of day is unambiguous: reading it back gives the hour and minute it came from |
| MedicineCard.MinuteVerbatim | components/MedicineCard.tsx:16-26 | the minute is shown as stored, not re-rendered |
| MedicineCard.EmptyMinuteInvalid | components/MedicineCard.tsx:16-22 | an empty minute field shows as an invalid time |
| MedicineCard.HourOnlyInvalid | components/MedicineCard.tsx:16-22 | `"HH:"` shows as an invalid time |
| MedicineCard.SuffixTells | components/MedicineCard.tsx:24-26 | the display ends in the p.m. suffix exactly when the hour is 12 or more, and the suffix holds no `:` |
| MedicineCard.FoodLabelsDistinct | components/MedicineCard.tsx:29-40 | the three food labels are pairwise distinct |
| App.Untaken | App.tsx:23 | the filter keeps exactly the untaken medicines |
| App.UntakenAppend | App.tsx:23 | the filter distributes over concatenation, so the untaken medicines keep their order |
| App.Rebuild | App.tsx:21-24 | the effect hands out at most one handle per medicine |
| App.Commit | App.tsx:21-24 | committing a list replaces the medicines and rebuilds the reminders from the new list, leaving the modal alone |
| App.Mount | App.tsx:21-24 | the app starts with the stored list, the modal closed, and reminders rebuilt from nothing |
| App.OpenAdd | App.tsx:26-29 | opening the add form clears the edited medicine and opens the modal |
| App.OpenEdit | App.tsx:31-34 | opening the edit form records the medicine and opens the modal |
| App.CloseModal | App.tsx:36-39 | closing clears the edited medicine and closes the modal |
| App.ModalRoundTrip | App.tsx:26-39 | opening a form and closing it is closing alone, and each opener overrides whatever form was open before |
| App.SaveMedicine | App.tsx:41-48 | saving with a truthy id updates that id, otherwise it adds a new medicine; the modal closes and the reminders are rebuilt from the new list |
| App.Submit | components/AddMedicineModal.tsx:37-44 | an empty name or time changes nothing; otherwise the modal closes and the form updates the medicine being edited when its id is non-empty, and adds a new medicine otherwise |
| App.ToggleTaken | App.tsx:54-58 | the taken switch toggles the list, rebuilds the reminders from the new list and keeps the modal state |
| App.DeleteMedicine | App.tsx:54-58 | the delete button deletes from the list, rebuilds the reminders from the new list and keeps the modal state |
| App.UntakenKeepsUnique | App.tsx:23 | filtering keeps unique ids unique |
| App.RebuildRecordsExactly | App.tsx:21-24 | after a rebuild the record holds exactly the ids of the due, untaken medicines, `__proto__` excepted; with unique ids, a taken medicine has no entry |
| App.RebuildEmpty | App.tsx:21-24 | a rebuild over a list whose medicines are all taken leaves no entry and, from a state with no orphans, no live timer |
| App.RebuildNoStale | App.tsx:21-24 | from a state with no orphans, every live timer after a rebuild was installed by it, for a due, untaken medicine of the new list, with its delay |
| App.RebuildCoversDue | App.tsx:21-24 | every due, untaken medicine gets a live timer with a fresh handle and its delay, for any list, shared ids included; when the scheduler is valid, the ids are unique and the id is not `__proto__`, the record reaches that timer |
| App.RebuildKeepsValid | App.tsx:21-24 | with unique ids and no due, untaken medicine under `__proto__`, a rebuild keeps the scheduler invariant |
| App.MountValid | App.tsx:21-24 | the app starts out valid from any stored list with unique ids, none of them `__proto__` |
| App.SaveKeepsAppValid | App.tsx:41-48 | saving under a fresh id other than `__proto__` keeps the ids unique, free of `__proto__`, and the scheduler invariant |
| App.SubmitKeepsAppValid | components/AddMedicineModal.tsx:37-44 | submitting the form keeps the app invariant |
| App.ToggleDeleteKeepAppValid | App.tsx:54-58 | toggling and deleting keep the app invariant |
| App.RebuildDropsId | App.tsx:21-24 | a rebuild over a list in which no untaken medicine carries an id leaves no entry and no live timer for that id |
| App.TakenLosesReminder | App.tsx:21-24 | marking a medicine taken removes its entry and every live timer for it |
| App.DeletedLosesReminder | App.tsx:21-24 | deleting a medicine removes its entry and every live timer for it |
| App.FireKeepsAppValid | hooks/useNotifications.ts:179-188 | a firing keeps the app invariant |
| App.DuplicateIdOrphansTimer | hooks/useNotifications.ts:189 | two due medicines sharing an id leave the first timer live but unrecorded, and it survives a rebuild of the empty list |
| App.SharedIdOrphansTimer | hooks/useNotifications.ts:189 | for any two due, untaken medicines with the same id, scheduling from scratch orphans the first timer |
| App.OrphanSurvivesRebuild | App.tsx:21-24 | a live timer no record entry points to stays live and unchanged through a rebuild and stays unrecorded |
| App.OrphanSurvivesRebuilds | App.tsx:21-24 | the same holds through any sequence of rebuilds |
| App.SharedIdOrphanNeverCleared | hooks/useNotifications.ts:189 | the timer orphaned by two due medicines sharing an id stays live and unrecorded through every later sequence of rebuilds |
| App.ProtoIdOrphansTimer | hooks/useNotifications.ts:189 | a due medicine stored under the id `__proto__` gets a timer but no record entry, and its timer stays live after the medicine is marked taken or deleted |
| App.ProtoIdExample | hooks/useNotifications.ts:189 | a stored medicine under `__proto__` due at 08:00, mounted at 07:00, still has a live timer after it is deleted |
| App.HourOnlyScheduledButShownInvalid | hooks/useNotifications.ts:170-176 | `"HH:"` is scheduled like `"HH:00"`, yet the card shows it as an invalid time |

## Left out

- The Web Audio graph is not modelled: oscillator and gain nodes, the absent-`AudioContext` return and the `try`/`catch` around playback. A sound is the list of tones it starts, and times are relative to the audio clock.
- Real time is not modelled: `new Date()`, `setTimeout` and the host's event loop. "Now" is a parameter in ms after local midnight, and a timer firing is the explicit step `Reminders.Fire`. Daylight-saving transitions and time zones are not modelled.
- `setTimeout` converts its delay to a signed 32-bit integer, that is modulo 2^32, and runs a result at or below zero at once. So a delay of 2^31 ms or more fires at some other time than asked. Well-formed times stay far below 2^31 ms, so this conversion is not modelled: a delay is kept as the exact integer.
- Reminders.ClockMs: the date `setHours` produces is invalid once it lies more than 8.64e15 ms from the epoch. The model only returns `None` past a bound that is out of range on every day. Between the two, validity depends on today's date, which the model does not carry, so there the clock value is returned as a number.
- JavaScript numbers are exact reals and integers here, not doubles, so precision loss for numerals beyond 2^53 is not modelled.
- `Number` handles whitespace, an optional sign, `Infinity` and decimals with an optional fraction. Exponent, hexadecimal, octal and binary literals read as NaN here; JavaScript reads them as numbers.
- Tone times are exact decimals. The double rounding of values such as `i * 2.5` is not modelled.
- The notification permission request (hooks/useNotifications.ts:12-20) and the notification icon are not modelled. Permission is a boolean parameter of `Reminders.Fire`.
- The sound selection lives in a settings hook, which is not part of this model. The selected sound reaches `Reminders.Fire` as a parameter, standing for the current value of the sound ref.
- The localStorage load and save (hooks/useMedicines.ts:7-23) are not modelled. `App.Mount` takes the stored list as given.
- `crypto.randomUUID()` is not modelled. The id is a parameter, and the precondition that it is not in the list stands for its uniqueness.
- Rendering is not modelled: markup, icons, styles, the empty-state and settings components, and the card's layout beyond its two text functions.
- `localeCompare` is modelled as code-point lexicographic order. Locale-specific collation is not modelled.
- MedicineList.SortByTime: a list of at most one medicine is accepted whatever its time, because the sort calls no comparator on it. A longer list must have string times. The comparator calls `localeCompare` on one of the two times, and that throws for a non-string. Which time is the receiver depends on the engine's sort order, so the throw is not modelled.
- MedicineList.Render: takes the same precondition as the sort, for the same reason.
- The unused `beepLen` constant and the empty `setTimeout(() => {}, 0)` in the chime loop are not modelled, because neither has an observable effect.
- The `typeof id === 'number'` test in cancel-all is not modelled, because every recorded value is a handle here.
- React's effect scheduling is not modelled. Each committed list causes exactly one cancel-then-schedule pass, and the pass runs synchronously with the commit.
- Reminders.Schedule: its own contract only bounds the handle counter and keeps existing ids. Its exact effect is stated by the `Reminders.Schedule*` lemmas.
- App.Rebuild: its own contract only bounds the handle counter. Its exact effect is stated by the `App.Rebuild*` lemmas.
