/** Records shared by every part of the medication-reminder app. */
module Types {

  /** A value that may be absent (`undefined` / `null` in the app). */
  datatype Option<+T> = None | Some(value: T)

  /** What a medicine's `time` field holds. It is declared a 24-hour `HH:mm`
      string, but a record restored from storage may hold any JSON value
      there, so every consumer has to cope with `NotText` (any non-string)
      and with malformed text. */
  datatype TimeValue = Text(text: string) | NotText

  /** When to take a dose relative to food. */
  datatype FoodRelation = Before | After | With | Any

  /** One medicine of the user's list. */
  datatype Medicine = Medicine(
    id: string,
    name: string,
    dosage: string,
    time: TimeValue,
    taken: bool,
    foodRelation: Option<FoodRelation>)

  /** The fields the add/edit form submits: a medicine without `id` and `taken`. */
  datatype MedicineData = MedicineData(
    name: string,
    dosage: string,
    time: string,
    foodRelation: Option<FoodRelation>)

  /** The four alert sounds a user can select. */
  datatype SoundType = Alarm | Chime | Digital | Gentle

  /** The identifier under which a sound is selected and stored. */
  function SoundName(t: SoundType): string
  {
    match t
    case Alarm => "alarm"
    case Chime => "chime"
    case Digital => "digital"
    case Gentle => "gentle"
  }

  /** The sound a stored identifier selects, if it is one of the four. */
  function SoundOfName(name: string): Option<SoundType>
  {
    if name == "alarm" then Some(Alarm)
    else if name == "chime" then Some(Chime)
    else if name == "digital" then Some(Digital)
    else if name == "gentle" then Some(Gentle)
    else None
  }

  /** The enumeration is closed: exactly four identifiers, one per sound. */
  lemma SoundNameRoundTrip(t: SoundType, name: string)
    ensures SoundOfName(SoundName(t)) == Some(t)
    ensures SoundOfName(name).Some? <==> name in {"alarm", "chime", "digital", "gentle"}
    ensures SoundOfName(name).Some? ==> SoundName(SoundOfName(name).value) == name
  {
  }

  /** The ids occurring in a list of medicines. */
  function Ids(ms: seq<Medicine>): set<string>
  {
    set m | m in ms :: m.id
  }

  /** No two positions of the list carry the same id. */
  predicate UniqueIds(ms: seq<Medicine>)
  {
    forall i, j :: 0 <= i < j < |ms| ==> ms[i].id != ms[j].id
  }
}
