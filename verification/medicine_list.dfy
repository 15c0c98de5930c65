/** The medicine list screen: the empty state, or one card per medicine in
    order of time. */
module MedicineList {
  import opened Types
  import MedicineCard

  /** String order as a character-by-character comparison: a proper prefix
      comes first. */
  predicate LexLe(a: string, b: string)
    decreases |a|
  {
    if a == [] then true
    else if b == [] then false
    else if a[0] != b[0] then a[0] < b[0]
    else LexLe(a[1..], b[1..])
  }

  lemma {:induction false} LexReflexive(a: string)
    ensures LexLe(a, a)
    decreases |a|
  {
    if a != [] {
      LexReflexive(a[1..]);
    }
  }

  lemma {:induction false} LexTotal(a: string, b: string)
    ensures LexLe(a, b) || LexLe(b, a)
    decreases |a|
  {
    if a != [] && b != [] && a[0] == b[0] {
      LexTotal(a[1..], b[1..]);
    }
  }

  lemma {:induction false} LexAntisymmetric(a: string, b: string)
    requires LexLe(a, b) && LexLe(b, a)
    ensures a == b
    decreases |a|
  {
    if a != [] {
      LexAntisymmetric(a[1..], b[1..]);
      assert a == [a[0]] + a[1..] && b == [b[0]] + b[1..];
    }
  }

  lemma {:induction false} LexTransitive(a: string, b: string, c: string)
    requires LexLe(a, b) && LexLe(b, c)
    ensures LexLe(a, c)
    decreases |a|
  {
    if a != [] && a[0] == b[0] && b[0] == c[0] {
      LexTransitive(a[1..], b[1..], c[1..]);
    }
  }

  /** Every time field of the list is a string: `localeCompare` is called
      on the time of one side of each comparison and throws on anything
      else. */
  predicate AllText(ms: seq<Medicine>)
  {
    forall i :: 0 <= i < |ms| ==> ms[i].time.Text?
  }

  /** The sort key: the time field's text. */
  function Key(m: Medicine): string
    requires m.time.Text?
  {
    m.time.text
  }

  /** Ordered by time, earliest first. */
  predicate SortedByTime(ms: seq<Medicine>)
    requires AllText(ms)
  {
    forall i, j :: 0 <= i < j < |ms| ==> LexLe(Key(ms[i]), Key(ms[j]))
  }

  /** Place `x` in front of the first element it does not follow: after
      every element with a smaller time, before every element with the
      same or a later one. */
  function Insert(x: Medicine, s: seq<Medicine>): (r: seq<Medicine>)
    requires x.time.Text? && AllText(s)
    ensures |r| == |s| + 1 && AllText(r)
    ensures multiset(r) == multiset(s) + multiset{x}
    decreases |s|
  {
    if s == [] || LexLe(Key(x), Key(s[0])) then [x] + s
    else
      assert s == [s[0]] + s[1..];
      [s[0]] + Insert(x, s[1..])
  }

  /** Inserting into a sorted list keeps it sorted. */
  lemma {:induction false} InsertSorted(x: Medicine, s: seq<Medicine>)
    requires x.time.Text? && AllText(s) && SortedByTime(s)
    ensures SortedByTime(Insert(x, s))
    decreases |s|
  {
    if s == [] || LexLe(Key(x), Key(s[0])) {
      InFront(x, s);
    } else {
      LexTotal(Key(x), Key(s[0]));
      InsertSorted(x, s[1..]);
      HeadStaysFirst(s, x, Insert(x, s[1..]));
    }
  }

  /** `[...medicines].sort((a, b) => a.time.localeCompare(b.time))`: a
      stable sort by time on a copy. A list of at most one medicine is
      returned as it is without calling the comparator, whatever its time
      holds; a longer list needs string times, as `localeCompare` is called
      on one side of each comparison. */
  function SortByTime(ms: seq<Medicine>): (r: seq<Medicine>)
    requires |ms| <= 1 || AllText(ms)
    ensures |r| == |ms| && multiset(r) == multiset(ms)
    ensures |ms| <= 1 ==> r == ms
    ensures AllText(ms) ==> AllText(r) && SortedByTime(r)
  {
    if |ms| <= 1 then ms
    else
      var t := SortByTime(ms[1..]);
      InsertSorted(ms[0], t);
      assert ms == [ms[0]] + ms[1..];
      Insert(ms[0], t)
  }

  /** The medicines of `ms` whose time is exactly `k`, in their order. */
  function AtTime(ms: seq<Medicine>, k: string): seq<Medicine>
  {
    if ms == [] then []
    else (if ms[0].time == Text(k) then [ms[0]] else []) + AtTime(ms[1..], k)
  }

  /** Inserting `x` places it before every element with the same time. */
  lemma {:induction false} InsertAtTime(x: Medicine, s: seq<Medicine>, k: string)
    requires x.time.Text? && AllText(s)
    ensures AtTime(Insert(x, s), k) == (if x.time == Text(k) then [x] else []) + AtTime(s, k)
    decreases |s|
  {
    var r := Insert(x, s);
    if s == [] || LexLe(Key(x), Key(s[0])) {
      assert r == [x] + s;
      AtTimeCons(x, s, k);
    } else {
      var t := Insert(x, s[1..]);
      var a := AtTime(s[1..], k);
      var p0 := if s[0].time == Text(k) then [s[0]] else [];
      var px := if x.time == Text(k) then [x] else [];
      InsertStep(x, s);
      AtTimeCons(s[0], t, k);
      InsertAtTime(x, s[1..], k);
      assert AtTime(r, k) == p0 + (px + a);
      assert AtTime(s, k) == p0 + a;
      SwapPastEmpty(p0, px, a);
    }
  }

  /** Two prefixes of which one is empty can be exchanged. */
  lemma SwapPastEmpty<T>(p: seq<T>, q: seq<T>, a: seq<T>)
    requires p == [] || q == []
    ensures p + (q + a) == q + (p + a)
  {
    if p == [] {
      assert p + (q + a) == q + a;
      assert p + a == a;
    } else {
      assert q + a == a;
      assert q + (p + a) == p + a;
    }
  }

  /** Inserting after the head: the head stays in front, and its time
      differs from the inserted one. */
  lemma InsertStep(x: Medicine, s: seq<Medicine>)
    requires x.time.Text? && AllText(s)
    requires s != [] && !LexLe(Key(x), Key(s[0]))
    ensures Insert(x, s) == [s[0]] + Insert(x, s[1..])
    ensures s[0].time != x.time
  {
    LexReflexive(Key(x));
  }

  lemma AtTimeCons(y: Medicine, t: seq<Medicine>, k: string)
    ensures AtTime([y] + t, k) == (if y.time == Text(k) then [y] else []) + AtTime(t, k)
  {
    assert ([y] + t)[1..] == t;
  }

  /** `x` in front of a sorted list no earlier than it keeps it sorted. */
  lemma InFront(x: Medicine, s: seq<Medicine>)
    requires x.time.Text? && AllText(s) && SortedByTime(s)
    requires s == [] || LexLe(Key(x), Key(s[0]))
    ensures AllText([x] + s) && SortedByTime([x] + s)
  {
    var r := [x] + s;
    forall j | 1 <= j < |r|
      ensures LexLe(Key(x), Key(r[j]))
    {
      if j > 1 {
        LexTransitive(Key(x), Key(s[0]), Key(s[j - 1]));
      }
    }
  }

  /** The head of a sorted list stays in front when a later medicine is
      inserted into its rest. */
  lemma HeadStaysFirst(s: seq<Medicine>, x: Medicine, tail: seq<Medicine>)
    requires x.time.Text? && AllText(s) && SortedByTime(s) && s != []
    requires LexLe(Key(s[0]), Key(x))
    requires AllText(tail) && SortedByTime(tail)
    requires multiset(tail) == multiset(s[1..]) + multiset{x}
    ensures AllText([s[0]] + tail) && SortedByTime([s[0]] + tail)
  {
    forall j | 0 <= j < |tail|
      ensures LexLe(Key(s[0]), Key(tail[j]))
    {
      assert tail[j] in multiset(tail);
      if tail[j] != x {
        var k :| 0 <= k < |s[1..]| && s[1..][k] == tail[j];
        assert s[k + 1] == tail[j];
      }
    }
    var r := [s[0]] + tail;
    forall i, j | 0 <= i < j < |r|
      ensures LexLe(Key(r[i]), Key(r[j]))
    {
      if i > 0 {
        assert r[i] == tail[i - 1] && r[j] == tail[j - 1];
      }
    }
  }

  /** The sort is stable: medicines with the same time keep their relative
      order. */
  lemma {:induction false} SortStable(ms: seq<Medicine>, k: string)
    requires AllText(ms)
    ensures AtTime(SortByTime(ms), k) == AtTime(ms, k)
    decreases |ms|
  {
    if ms != [] {
      SortStable(ms[1..], k);
      InsertAtTime(ms[0], SortByTime(ms[1..]), k);
    }
  }

  /** Sorting an already sorted list changes nothing. */
  lemma SortSortedIsIdentity(ms: seq<Medicine>)
    requires AllText(ms) && SortedByTime(ms)
    ensures SortByTime(ms) == ms
  {
    var r := SortByTime(ms);
    forall k: string
      ensures AtTime(r, k) == AtTime(ms, k)
    {
      SortStable(ms, k);
    }
    SortedEqual(r, ms);
  }

  /** Two lists sorted by time that agree on the medicines at every time
      are equal. */
  lemma {:induction false} SortedEqual(a: seq<Medicine>, b: seq<Medicine>)
    requires AllText(a) && AllText(b) && SortedByTime(a) && SortedByTime(b)
    requires forall k: string :: AtTime(a, k) == AtTime(b, k)
    ensures a == b
    decreases |a| + |b|
  {
    if a != [] && b != [] {
      var ka, kb := Key(a[0]), Key(b[0]);
      LeadingAtTime(a, kb);
      LeadingAtTime(b, ka);
      AtTimeOfHead(a);
      AtTimeOfHead(b);
      assert AtTime(a, ka) == AtTime(b, ka);
      assert AtTime(a, kb) == AtTime(b, kb);
      assert LexLe(kb, ka) && LexLe(ka, kb);
      LexAntisymmetric(ka, kb);
      assert a[0] == b[0];
      forall k: string
        ensures AtTime(a[1..], k) == AtTime(b[1..], k)
      {
        var p := if a[0].time == Text(k) then [a[0]] else [];
        assert AtTime(a, k) == p + AtTime(a[1..], k);
        assert AtTime(b, k) == p + AtTime(b[1..], k);
        assert (p + AtTime(a[1..], k))[|p|..] == AtTime(a[1..], k);
        assert (p + AtTime(b[1..], k))[|p|..] == AtTime(b[1..], k);
      }
      SortedEqual(a[1..], b[1..]);
      assert a == [a[0]] + a[1..] && b == [b[0]] + b[1..];
    } else if a != [] {
      AtTimeOfHead(a);
      assert false;
    } else if b != [] {
      AtTimeOfHead(b);
      assert false;
    }
  }

  /** A non-empty list has its head among the medicines at the head's time. */
  lemma AtTimeOfHead(a: seq<Medicine>)
    requires a != [] && a[0].time.Text?
    ensures AtTime(a, Key(a[0])) != [] && AtTime(a, Key(a[0]))[0] == a[0]
  {
  }

  /** In a sorted list, a time at which some medicine sits is no earlier
      than the head's. */
  lemma {:induction false} LeadingAtTime(a: seq<Medicine>, k: string)
    requires AllText(a) && SortedByTime(a) && a != []
    requires AtTime(a, k) != []
    ensures LexLe(Key(a[0]), k)
    decreases |a|
  {
    if a[0].time == Text(k) {
      LexReflexive(k);
    } else {
      assert AtTime(a, k) == AtTime(a[1..], k);
      var i := FirstAtTime(a[1..], k);
      assert LexLe(Key(a[0]), Key(a[i + 1]));
    }
  }

  /** The position of a medicine at time `k`, when there is one. */
  lemma {:induction false} FirstAtTime(a: seq<Medicine>, k: string) returns (i: nat)
    requires AtTime(a, k) != []
    ensures i < |a| && a[i].time == Text(k)
    decreases |a|
  {
    if a[0].time == Text(k) {
      i := 0;
    } else {
      var j := FirstAtTime(a[1..], k);
      i := j + 1;
    }
  }

  /** What the list renders. */
  datatype View = EmptyState | Cards(cards: seq<Medicine>)

  /** `MedicineList`: the empty state exactly when there is no medicine;
      otherwise one card per medicine, sorted by time. */
  function Render(ms: seq<Medicine>): (r: View)
    requires |ms| <= 1 || AllText(ms)
    ensures r.EmptyState? <==> |ms| == 0
    ensures r.Cards? ==> multiset(r.cards) == multiset(ms)
    ensures r.Cards? && AllText(ms) ==> AllText(r.cards) && SortedByTime(r.cards)
    ensures |ms| == 1 ==> r == Cards(ms)
  {
    var sorted := SortByTime(ms);
    if |ms| == 0 then EmptyState else Cards(sorted)
  }

  /** A single medicine renders as its own card even when its time is not a
      string, and that card reads "time not set". */
  lemma SingleUnsetCard(m: Medicine)
    requires m.time.NotText?
    ensures Render([m]) == Cards([m])
    ensures MedicineCard.FormatTime(m.time) == MedicineCard.TimeNotSet
  {
  }
}
