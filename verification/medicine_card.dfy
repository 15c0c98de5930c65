/** What a medicine card shows for the time and the food relation. */
module MedicineCard {
  import opened Types
  import opened JsText

  /** "Time not set". */
  const TimeNotSet := "الوقت غير محدد"
  /** "Invalid time". */
  const InvalidTime := "وقت غير صالح"
  /** "p.m." */
  const Pm := "مساءً"
  /** "a.m." */
  const Am := "صباحًا"

  /** JavaScript's `h % 12`: the remainder takes the sign of the dividend
      (truncating division), unlike Dafny's `%`. */
  function JsRem12(h: int): (r: int)
    ensures (h - r) % 12 == 0
    ensures h >= 0 ==> 0 <= r < 12
    ensures h < 0 ==> -12 < r <= 0
  {
    if h >= 0 then h % 12 else -((-h) % 12)
  }

  /** `h % 12 || 12`: the 12-hour clock hour; a remainder of zero is falsy
      and becomes 12. */
  function Hour12(h: int): (r: int)
    ensures (r - h) % 12 == 0
    ensures h >= 0 ==> 1 <= r <= 12
    ensures h < 0 ==> -11 <= r <= -1 || r == 12
  {
    var r := JsRem12(h);
    if r == 0 then 12 else r
  }

  /** How the card reads a time field: not set (not a string, or no `:`),
      invalid (either of the first two fields has no leading integer), or
      the parsed hour with the raw minute field. */
  datatype Reading = NotSet | Invalid | Clock(hour: int, minute: string)

  function ReadTime(time: TimeValue): (r: Reading)
    ensures r.NotSet? <==> time.NotText? || ':' !in time.text
    ensures r.Clock? ==> var f := FirstTwoFields(time.text);
      && ParseInt(f.0) == Some(r.hour) && ParseInt(f.1).Some? && r.minute == f.1
    ensures r.Invalid? ==> var f := FirstTwoFields(time.text);
      ParseInt(f.0).None? || ParseInt(f.1).None?
  {
    if time.NotText? || ':' !in time.text then NotSet
    else
      var f := FirstTwoFields(time.text);
      match (ParseInt(f.0), ParseInt(f.1))
      case (Some(h), Some(_)) => Clock(h, f.1)
      case _ => Invalid
  }

  /** The suffix: p.m. from hour 12 on. */
  function Suffix(h: int): string
  {
    if h >= 12 then Pm else Am
  }

  /** The clock display `<12-hour hour>:<minute field> <suffix>`; it holds
      a `:`, so it is neither fixed message. */
  function ClockText(h: int, minute: string): (r: string)
    ensures ':' in r && r != TimeNotSet && r != InvalidTime
  {
    var hs := IntToString(Hour12(h));
    WithColon(hs, minute, Suffix(h));
    hs + ":" + minute + " " + Suffix(h)
  }

  lemma WithColon(a: string, b: string, c: string)
    ensures var r := a + ":" + b + " " + c;
      ':' in r && r != TimeNotSet && r != InvalidTime
  {
    var r := a + ":" + b + " " + c;
    assert r[|a|] == ':';
    assert ':' !in TimeNotSet && ':' !in InvalidTime;
  }

  /** `formatTime`: `<12-hour hour>:<minute field as written> <suffix>`, or
      one of the two fixed messages. */
  function FormatTime(time: TimeValue): (r: string)
    ensures r == TimeNotSet <==> ReadTime(time).NotSet?
    ensures r == InvalidTime <==> ReadTime(time).Invalid?
    ensures ReadTime(time).Clock? ==> ':' in r
  {
    assert TimeNotSet != InvalidTime by {
      assert |TimeNotSet| != |InvalidTime|;
    }
    match ReadTime(time)
    case NotSet => TimeNotSet
    case Invalid => InvalidTime
    case Clock(h, minute) => ClockText(h, minute)
  }

  /** `getFoodRelationText`: a label for before, after and with food; none
      for "any" or a missing relation. */
  function FoodRelationText(relation: Option<FoodRelation>): (r: Option<string>)
    ensures r.Some? <==> relation.Some? && relation.value != Any
  {
    match relation
    case Some(Before) => Some("قبل الأكل")
    case Some(After) => Some("بعد الأكل")
    case Some(With) => Some("مع الأكل")
    case _ => None
  }

  // ---------------------------------------------------------------------
  // Properties

  /** The 24-hour hour from a 12-hour hour and its suffix. */
  function To24(hour12: int, pm: bool): int
  {
    hour12 % 12 + (if pm then 12 else 0)
  }

  /** The 12-hour hour and the suffix together determine the hour of the
      day: 0 shows as 12 a.m., 12 as 12 p.m. */
  lemma Hour12RoundTrip(h: int)
    requires 0 <= h < 24
    ensures To24(Hour12(h), h >= 12) == h
  {
  }

  /** `s` ends with `x`. */
  predicate EndsWith(s: string, x: string)
  {
    |x| <= |s| && s[|s| - |x|..] == x
  }

  /** Reads a card's time display back to a 24-hour hour and minute. */
  function ReadDisplay(d: string): Option<(int, int)>
  {
    if ':' !in d then None
    else
      var f := FirstTwoFields(d);
      match (ParseInt(f.0), ParseInt(f.1))
      case (Some(h12), Some(m)) => Some((To24(h12, EndsWith(d, Pm)), m))
      case _ => None
  }

  /** A well-formed `HH:mm` shows as its 12-hour hour, its minute field as
      written, and the suffix. */
  lemma FormatHhMm(h: nat, m: nat)
    requires h < 100 && m < 100
    ensures FormatTime(Text(HhMm(h, m))) == IntToString(Hour12(h)) + ":" + Pad2(m) + " " + Suffix(h)
  {
    HhMmFields(h, m);
    Pad2ParseInt(h);
    Pad2ParseInt(m);
  }

  /** The display of a time of day is unambiguous: reading it back gives
      the hour and minute it was formatted from. */
  lemma DisplayRoundTrip(h: nat, m: nat)
    requires h < 24 && m < 60
    ensures ReadDisplay(FormatTime(Text(HhMm(h, m)))) == Some((h, m))
  {
    FormatHhMm(h, m);
    DisplayOfClock(h, m);
  }

  lemma DisplayOfClock(h: nat, m: nat)
    requires h < 24 && m < 60
    ensures ReadDisplay(IntToString(Hour12(h)) + ":" + Pad2(m) + " " + Suffix(h)) == Some((h, m))
  {
    var hs, ms, rest := IntToString(Hour12(h)), Pad2(m), " " + Suffix(h);
    var d := hs + ":" + ms + " " + Suffix(h);
    assert d == hs + ":" + ms + rest;
    assert ':' !in hs && ':' !in ms by {
      assert !IsDigit(':');
    }
    assert !IsDigit(' ');
    DigitsThenParse(ms, rest);
    SuffixTells(hs + ":" + ms, h);
    Hour12RoundTrip(h);
    ReadDisplayOf(hs, ms, rest, Hour12(h), m);
  }

  /** The suffix alone tells a.m. from p.m. */
  lemma SuffixTells(prefix: string, h: int)
    ensures ':' !in " " + Suffix(h)
    ensures EndsWith(prefix + " " + Suffix(h), Pm) <==> h >= 12
  {
    var d := prefix + " " + Suffix(h);
    assert d[|d| - |Suffix(h)|..] == Suffix(h);
    assert d[|d| - |Pm|..] == Suffix(h)[|Suffix(h)| - |Pm|..];
  }

  lemma ReadDisplayOf(hs: string, ms: string, rest: string, h12: int, m: int)
    requires ':' !in hs && ':' !in ms && ':' !in rest
    requires ParseInt(hs) == Some(h12) && ParseInt(ms + rest) == Some(m)
    ensures ReadDisplay(hs + ":" + ms + rest) == Some((To24(h12, EndsWith(hs + ":" + ms + rest, Pm)), m))
  {
    FieldsThenRest(hs, ms, rest);
  }

  /** The first two fields of `a:b<rest>` when `rest` holds no `:`. */
  lemma FieldsThenRest(a: string, b: string, rest: string)
    requires ':' !in a && ':' !in b && ':' !in rest
    ensures ':' in a + ":" + b + rest
    ensures FirstTwoFields(a + ":" + b + rest) == (a, b + rest)
  {
    assert ':' !in b + rest;
    FieldsOf(a, b + rest, []);
    assert a + ":" + (b + rest) + [] == a + ":" + b + rest;
  }

  /** The minute field is shown exactly as stored, not re-rendered: a time
      whose fields parse shows everything between the first and the second
      `:` verbatim. */
  lemma MinuteVerbatim(t: string, hs: string, ms: string, h: int)
    requires ':' in t && FirstTwoFields(t) == (hs, ms)
    requires ParseInt(hs) == Some(h) && ParseInt(ms).Some?
    ensures FormatTime(Text(t)) == IntToString(Hour12(h)) + ":" + ms + " " + Suffix(h)
  {
  }

  /** An empty minute field shows as an invalid time: `parseInt('')` is
      NaN. */
  lemma EmptyMinuteInvalid(t: string)
    requires ':' in t && FirstTwoFields(t).1 == []
    ensures FormatTime(Text(t)) == InvalidTime
  {
    assert ParseInt([]).None?;
  }

  /** An hour followed by `:` and nothing else shows as an invalid time. */
  lemma HourOnlyInvalid(h: nat)
    requires h < 100
    ensures FormatTime(Text(Pad2(h) + ":")) == InvalidTime
  {
    var t := Pad2(h) + ":";
    assert !IsDigit(':');
    assert t + [] + [] == t;
    FieldsOf(Pad2(h), [], []);
    EmptyMinuteInvalid(t);
  }

  /** The three food labels are distinct. */
  lemma FoodLabelsDistinct(a: FoodRelation, b: FoodRelation)
    requires FoodRelationText(Some(a)).Some? && FoodRelationText(Some(b)).Some?
    ensures FoodRelationText(Some(a)) == FoodRelationText(Some(b)) <==> a == b
  {
  }
}
