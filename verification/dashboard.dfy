/** The dashboard's profile and trend reduction: a stored assessment record's
    fine-dimension scores are rolled up into four macro categories, averaged,
    normalised onto 0..100 for the radar chart, and the record history is
    turned into a chronological score trend. */
module Dashboard {
  import opened Optional
  import opened JsText
  import opened JsMath

  // ---------------------------------------------------------------------------
  // Static tables
  // ---------------------------------------------------------------------------

  datatype Category = SocialEmotional | HealthWellbeing | Relationships | SchoolExperience

  /** The keys of `MAIN_CATEGORIES` in insertion order, which is the order in
      which `Object.entries` visits them. */
  const MainCategories: seq<Category> :=
    [SocialEmotional, HealthWellbeing, Relationships, SchoolExperience]

  /** The radar axis label of each category. */
  function Label(c: Category): string
  {
    match c
    case SocialEmotional => "社会情感能力"
    case HealthWellbeing => "健康与幸福"
    case Relationships => "关系连接"
    case SchoolExperience => "学校体验"
  }

  /** `dimensionMapping`: fine dimension key to macro category. */
  const DimensionMapping: map<string, Category> := map[
    "optimism" := SocialEmotional,
    "sadness_absence" := SocialEmotional,
    "resilience" := SocialEmotional,
    "resilience_ext" := SocialEmotional,
    "empathy" := SocialEmotional,
    "social_anxiety" := SocialEmotional,
    "cooperation" := SocialEmotional,
    "social_resp" := SocialEmotional,
    "decision" := SocialEmotional,
    "grit" := SocialEmotional,
    "grit_consistency" := SocialEmotional,
    "meaning_presence" := SocialEmotional,
    "health" := HealthWellbeing,
    "health_general" := HealthWellbeing,
    "body_image" := HealthWellbeing,
    "life_satisfaction" := HealthWellbeing,
    "flourishing" := HealthWellbeing,
    "sleep_quality" := HealthWellbeing,
    "energy" := HealthWellbeing,
    "peer_support" := Relationships,
    "friendship" := Relationships,
    "friendship_intimacy" := Relationships,
    "peer_belonging" := Relationships,
    "parent_rel" := Relationships,
    "parent_relationship" := Relationships,
    "family_support" := Relationships,
    "parent_comm" := Relationships,
    "teacher_rel" := Relationships,
    "teacher_care" := Relationships,
    "teacher_understanding" := Relationships,
    "teacher_support" := Relationships,
    "school_climate" := SchoolExperience,
    "school_belonging" := SchoolExperience
  ]

  /** Property names every plain JavaScript object inherits from
      `Object.prototype`. Indexing an object literal with one of them yields a
      truthy value (a function, or the prototype itself for `__proto__`) even
      though the literal never declared it. */
  const ObjectPrototypeNames: set<string> := {
    "constructor", "hasOwnProperty", "isPrototypeOf", "propertyIsEnumerable",
    "toString", "toLocaleString", "valueOf", "__proto__",
    "__defineGetter__", "__defineSetter__", "__lookupGetter__", "__lookupSetter__"
  }

  /** What `dimensionMapping[key]` evaluates to. */
  datatype Lookup = Mapped(category: Category) | Inherited | Unmapped

  function LookupDimension(key: string): (r: Lookup)
    ensures r.Mapped? ==> key in DimensionMapping && r.category == DimensionMapping[key]
    ensures r.Inherited? ==> key in ObjectPrototypeNames
    ensures key in DimensionMapping ==> r == Mapped(DimensionMapping[key])
    ensures key !in DimensionMapping ==> (r == Inherited <==> key in ObjectPrototypeNames)
  {
    if key in DimensionMapping then Mapped(DimensionMapping[key])
    else if key in ObjectPrototypeNames then Inherited
    else Unmapped
  }

  // ---------------------------------------------------------------------------
  // Aggregation
  // ---------------------------------------------------------------------------

  /** A parsed JSON value: only numbers take part in the reduction. */
  datatype Value = Num(x: real) | Other

  /** One `[dimKey, score]` pair of `Object.entries(scores)`. */
  datatype Entry = Entry(key: string, value: Value)

  /** A category's running `{ total, count }`. */
  datatype Tally = Tally(total: real, count: nat)

  /** `categoryScores`: one tally per macro category. */
  datatype Tallies = Tallies(socialEmotional: Tally, healthWellbeing: Tally,
                             relationships: Tally, schoolExperience: Tally)
  {
    function Get(c: Category): Tally
    {
      match c
      case SocialEmotional => socialEmotional
      case HealthWellbeing => healthWellbeing
      case Relationships => relationships
      case SchoolExperience => schoolExperience
    }

    /** `total += x; count += 1` on one category, nothing else touched. */
    function Add(c: Category, x: real): (t: Tallies)
      ensures t.Get(c) == Tally(Get(c).total + x, Get(c).count + 1)
      ensures forall d :: d != c ==> t.Get(d) == Get(d)
    {
      var prev := Get(c);
      var n := Tally(prev.total + x, prev.count + 1);
      match c
      case SocialEmotional => this.(socialEmotional := n)
      case HealthWellbeing => this.(healthWellbeing := n)
      case Relationships => this.(relationships := n)
      case SchoolExperience => this.(schoolExperience := n)
    }
  }

  const EmptyTallies: Tallies :=
    Tallies(Tally(0.0, 0), Tally(0.0, 0), Tally(0.0, 0), Tally(0.0, 0))

  /** The body of the `forEach` callback on one entry. `None` is the
      `TypeError` thrown when an inherited name gives a truthy non-category
      and `categoryScores[...]` is `undefined`. */
  function Step(t: Tallies, e: Entry): Option<Tallies>
  {
    match LookupDimension(e.key)
    case Unmapped => Some(t)
    case Inherited => if e.value.Num? then None else Some(t)
    case Mapped(c) => if e.value.Num? then Some(t.Add(c, e.value.x)) else Some(t)
  }

  /** The `forEach` over the entries, first to last, from all-zero tallies;
      `None` when some step throws. */
  function Aggregate(entries: seq<Entry>): (r: Option<Tallies>)
    ensures r.Some? ==> forall c :: r.value.Get(c).count <= |entries|
  {
    if |entries| == 0 then Some(EmptyTallies)
    else match Aggregate(entries[..|entries| - 1])
      case None => None
      case Some(t) => Step(t, entries[|entries| - 1])
  }

  // The reference reading of the reduction, independent of its order.

  /** The entry adds to category `c`. */
  predicate Counts(c: Category, e: Entry)
  {
    LookupDimension(e.key) == Mapped(c) && e.value.Num?
  }

  /** The entry makes the callback throw. */
  predicate Faults(e: Entry)
  {
    LookupDimension(e.key).Inherited? && e.value.Num?
  }

  /** The entry is skipped by the `if`. */
  predicate Ignored(e: Entry)
  {
    LookupDimension(e.key).Unmapped? || !e.value.Num?
  }

  function CategoryTotal(c: Category, entries: seq<Entry>): real
  {
    if |entries| == 0 then 0.0
    else (if Counts(c, entries[0]) then entries[0].value.x else 0.0) + CategoryTotal(c, entries[1..])
  }

  function CategoryCount(c: Category, entries: seq<Entry>): nat
  {
    if |entries| == 0 then 0
    else (if Counts(c, entries[0]) then 1 else 0) + CategoryCount(c, entries[1..])
  }

  predicate AnyFault(entries: seq<Entry>)
  {
    exists i :: 0 <= i < |entries| && Faults(entries[i])
  }

  lemma {:induction false} ReferenceAppend(c: Category, a: seq<Entry>, b: seq<Entry>)
    ensures CategoryTotal(c, a + b) == CategoryTotal(c, a) + CategoryTotal(c, b)
    ensures CategoryCount(c, a + b) == CategoryCount(c, a) + CategoryCount(c, b)
    decreases |a|
  {
    if |a| > 0 {
      assert (a + b)[1..] == a[1..] + b;
      ReferenceAppend(c, a[1..], b);
    } else {
      assert a + b == b;
    }
  }

  lemma SingleEntryReference(c: Category, e: Entry)
    ensures CategoryTotal(c, [e]) == if Counts(c, e) then e.value.x else 0.0
    ensures CategoryCount(c, [e]) == if Counts(c, e) then 1 else 0
  {
    assert [e][1..] == [];
  }

  lemma TalliesEqual(t: Tallies, u: Tallies)
    requires forall c :: t.Get(c) == u.Get(c)
    ensures t == u
  {
    assert t.Get(SocialEmotional) == u.Get(SocialEmotional);
    assert t.Get(HealthWellbeing) == u.Get(HealthWellbeing);
    assert t.Get(Relationships) == u.Get(Relationships);
    assert t.Get(SchoolExperience) == u.Get(SchoolExperience);
  }

  /** The left-to-right `forEach` computes the reference: it throws exactly
      when some entry faults, and otherwise every category holds the sum and
      the number of the numeric entries whose key maps to it. */
  lemma {:induction false} AggregateMatchesReference(entries: seq<Entry>)
    ensures Aggregate(entries).None? <==> AnyFault(entries)
    ensures Aggregate(entries).Some? ==>
      forall c :: Aggregate(entries).value.Get(c) == Tally(CategoryTotal(c, entries), CategoryCount(c, entries))
    decreases |entries|
  {
    if |entries| > 0 {
      var n := |entries|;
      var init := entries[..n - 1];
      var e := entries[n - 1];
      assert entries == init + [e];
      AggregateMatchesReference(init);
      forall c
        ensures CategoryTotal(c, entries) == CategoryTotal(c, init) + (if Counts(c, e) then e.value.x else 0.0)
        ensures CategoryCount(c, entries) == CategoryCount(c, init) + (if Counts(c, e) then 1 else 0)
      {
        ReferenceAppend(c, init, [e]);
        SingleEntryReference(c, e);
      }
      if AnyFault(init) {
        var i :| 0 <= i < n - 1 && Faults(init[i]);
        assert entries[i] == init[i];
      }
      if Faults(e) {
        assert Faults(entries[n - 1]);
      }
    } else {
      forall c
        ensures Aggregate(entries).value.Get(c) == Tally(CategoryTotal(c, entries), CategoryCount(c, entries))
      {
        match c
        case SocialEmotional =>
        case HealthWellbeing =>
        case Relationships =>
        case SchoolExperience =>
      }
    }
  }

  /** Two entry lists with the same reference reading aggregate alike. */
  lemma SameReferenceSameAggregate(a: seq<Entry>, b: seq<Entry>)
    requires AnyFault(a) == AnyFault(b)
    requires forall c :: CategoryTotal(c, a) == CategoryTotal(c, b) && CategoryCount(c, a) == CategoryCount(c, b)
    ensures Aggregate(a) == Aggregate(b)
  {
    AggregateMatchesReference(a);
    AggregateMatchesReference(b);
    if Aggregate(a).Some? {
      TalliesEqual(Aggregate(a).value, Aggregate(b).value);
    }
  }

  lemma AnyFaultAppend(a: seq<Entry>, b: seq<Entry>)
    ensures AnyFault(a + b) <==> AnyFault(a) || AnyFault(b)
  {
    if AnyFault(a + b) {
      var i :| 0 <= i < |a + b| && Faults((a + b)[i]);
      if i < |a| {
        assert a[i] == (a + b)[i];
      } else {
        assert b[i - |a|] == (a + b)[i];
      }
    }
    if AnyFault(a) {
      var i :| 0 <= i < |a| && Faults(a[i]);
      assert (a + b)[i] == a[i];
    }
    if AnyFault(b) {
      var i :| 0 <= i < |b| && Faults(b[i]);
      assert (a + b)[|a| + i] == b[i];
    }
  }

  /** An entry whose key is not in the table (and not an inherited name), or
      whose value is not a number, changes neither any total nor any count,
      wherever it sits. */
  lemma IgnoredEntryChangesNothing(before: seq<Entry>, e: Entry, after: seq<Entry>)
    requires Ignored(e)
    ensures Aggregate(before + [e] + after) == Aggregate(before + after)
  {
    var withE := before + [e] + after;
    var without := before + after;
    forall c
      ensures CategoryTotal(c, withE) == CategoryTotal(c, without)
      ensures CategoryCount(c, withE) == CategoryCount(c, without)
    {
      ReferenceAppend(c, before + [e], after);
      ReferenceAppend(c, before, [e]);
      ReferenceAppend(c, before, after);
      SingleEntryReference(c, e);
    }
    AnyFaultAppend(before + [e], after);
    AnyFaultAppend(before, [e]);
    AnyFaultAppend(before, after);
    assert !AnyFault([e]) by {
      assert !Faults([e][0]);
    }
    SameReferenceSameAggregate(withE, without);
  }

  /** A numeric entry whose key maps to category `c` adds its value to `c`'s
      total and exactly 1 to `c`'s count, and leaves the other categories as
      they were. */
  lemma MappedEntryAddsOnce(before: seq<Entry>, e: Entry, after: seq<Entry>)
    requires LookupDimension(e.key).Mapped? && e.value.Num?
    ensures Aggregate(before + [e] + after).Some? <==> Aggregate(before + after).Some?
    ensures Aggregate(before + after).Some? ==>
      var c := LookupDimension(e.key).category;
      var t := Aggregate(before + after).value;
      var u := Aggregate(before + [e] + after).value;
      && u.Get(c) == Tally(t.Get(c).total + e.value.x, t.Get(c).count + 1)
      && forall d :: d != c ==> u.Get(d) == t.Get(d)
  {
    var withE := before + [e] + after;
    var without := before + after;
    forall c
      ensures CategoryTotal(c, withE) == CategoryTotal(c, without) + (if Counts(c, e) then e.value.x else 0.0)
      ensures CategoryCount(c, withE) == CategoryCount(c, without) + (if Counts(c, e) then 1 else 0)
    {
      ReferenceAppend(c, before + [e], after);
      ReferenceAppend(c, before, [e]);
      ReferenceAppend(c, before, after);
      SingleEntryReference(c, e);
    }
    AnyFaultAppend(before + [e], after);
    AnyFaultAppend(before, [e]);
    AnyFaultAppend(before, after);
    assert !AnyFault([e]) by {
      assert !Faults([e][0]);
    }
    AggregateMatchesReference(withE);
    AggregateMatchesReference(without);
  }

  /** A number under an inherited property name makes the whole reduction
      throw, wherever it sits. */
  lemma InheritedNameThrows(before: seq<Entry>, e: Entry, after: seq<Entry>)
    requires Faults(e)
    ensures Aggregate(before + [e] + after).None?
  {
    var all := before + [e] + after;
    assert all[|before|] == e;
    AggregateMatchesReference(all);
  }

  lemma MultisetCancel<T>(m: multiset<T>, n: multiset<T>, x: T)
    requires m + multiset{x} == n + multiset{x}
    ensures m == n
  {
    forall y
      ensures m[y] == n[y]
    {
      assert (m + multiset{x})[y] == (n + multiset{x})[y];
    }
  }

  /** Taking entry `j` out of `b`: what is left, and how the reference
      reading splits around it. */
  lemma ReferenceRemoveAt(b: seq<Entry>, j: nat) returns (rest: seq<Entry>)
    requires j < |b|
    ensures rest == b[..j] + b[j + 1..]
    ensures multiset(b) == multiset(rest) + multiset{b[j]}
    ensures AnyFault(b) <==> AnyFault(rest) || Faults(b[j])
    ensures forall c ::
      && CategoryTotal(c, b) == CategoryTotal(c, rest) + CategoryTotal(c, [b[j]])
      && CategoryCount(c, b) == CategoryCount(c, rest) + CategoryCount(c, [b[j]])
  {
    var x := b[j];
    rest := b[..j] + b[j + 1..];
    assert b == b[..j] + [x] + b[j + 1..];
    forall c
      ensures CategoryTotal(c, b) == CategoryTotal(c, rest) + CategoryTotal(c, [x])
      ensures CategoryCount(c, b) == CategoryCount(c, rest) + CategoryCount(c, [x])
    {
      ReferenceAppend(c, b[..j] + [x], b[j + 1..]);
      ReferenceAppend(c, b[..j], [x]);
      ReferenceAppend(c, b[..j], b[j + 1..]);
    }
    AnyFaultAppend(b[..j] + [x], b[j + 1..]);
    AnyFaultAppend(b[..j], [x]);
    AnyFaultAppend(b[..j], b[j + 1..]);
    assert AnyFault([x]) <==> Faults(x) by {
      assert [x][0] == x;
    }
  }

  /** The reference reading depends only on which entries there are, not on
      their order. */
  lemma {:induction false} ReferencePermutation(a: seq<Entry>, b: seq<Entry>)
    requires multiset(a) == multiset(b)
    ensures AnyFault(a) == AnyFault(b)
    ensures forall c :: CategoryTotal(c, a) == CategoryTotal(c, b) && CategoryCount(c, a) == CategoryCount(c, b)
    decreases |a|
  {
    if |a| == 0 {
      assert |b| == |multiset(b)| == 0;
      assert b == [];
    } else {
      var x := a[0];
      assert x in multiset(b);
      var j :| 0 <= j < |b| && b[j] == x;
      var rest := ReferenceRemoveAt(b, j);
      var tail := ReferenceRemoveAt(a, 0);
      assert a[..0] == [];
      MultisetCancel(multiset(tail), multiset(rest), x);
      ReferencePermutation(tail, rest);
    }
  }

  /** The entry order does not matter: any reordering of the entries gives
      the same tallies, and throws exactly when the original does. */
  lemma AggregateOrderIrrelevant(a: seq<Entry>, b: seq<Entry>)
    requires multiset(a) == multiset(b)
    ensures Aggregate(a) == Aggregate(b)
  {
    ReferencePermutation(a, b);
    SameReferenceSameAggregate(a, b);
  }

  // ---------------------------------------------------------------------------
  // Normalisation
  // ---------------------------------------------------------------------------

  /** `count > 0 ? total / count : 0`. */
  function Average(t: Tally): (avg: real)
    ensures t.count > 0 ==> avg * (t.count as real) == t.total
    ensures t.count == 0 ==> avg == 0.0
  {
    if t.count > 0 then t.total / (t.count as real) else 0.0
  }

  /** `Math.min(Math.round((avg / 5) * 100), 100)`: the average as a rounded
      percentage of 5, capped at 100 from above and not clamped from below. */
  function Normalize(avg: real): (n: int)
    ensures n <= 100
    ensures n == 100 <==> avg * 20.0 >= 99.5
    ensures n < 100 ==> (n as real) - 0.5 <= avg * 20.0 < (n as real) + 0.5
    ensures avg * 20.0 < -0.5 ==> n < 0
  {
    Min(Round(avg / 5.0 * 100.0), 100)
  }

  /** `normalizedScore || 20`. */
  function Shown(n: int): int
  {
    if n == 0 then 20 else n
  }

  /** The reported value `v` is what the radar promises for average `avg`:
      at most 100, never 0; 100 exactly when the percentage reaches 99.5; the
      floor value 20 for a percentage that rounds to 0; otherwise the
      percentage rounded half-up. */
  predicate ReportsAverage(v: int, avg: real)
  {
    && v <= 100
    && v != 0
    && (avg * 20.0 >= 99.5 ==> v == 100)
    && (avg * 20.0 < 99.5 ==>
          || (v == 20 && -0.5 <= avg * 20.0 < 0.5)
          || ((v as real) - 0.5 <= avg * 20.0 < (v as real) + 0.5))
  }

  /** `ReportsAverage` pins the value down: for every average exactly one
      value satisfies it, and that is the one the page computes. */
  lemma ReportsAverageUnique(v: int, avg: real)
    ensures ReportsAverage(v, avg) <==> v == Shown(Normalize(avg))
  {
  }

  /** The floor to 20 applies to an exact 0 only: every other normalised
      value, including the positive ones below 20 and the negative ones, is
      reported unchanged. */
  lemma FloorOnlyAtZero(n: int)
    ensures Shown(n) != 0
    ensures n == 0 ==> Shown(n) == 20
    ensures n != 0 ==> Shown(n) == n
  {
  }

  datatype RadarPoint = RadarPoint(subject: string, value: int, fullMark: int)

  function PointFor(t: Tallies, c: Category): RadarPoint
  {
    RadarPoint(Label(c), Shown(Normalize(Average(t.Get(c)))), 100)
  }

  /** The `chartData` built from the tallies: one point per category, in
      `MAIN_CATEGORIES` order. */
  function Profile(t: Tallies): (r: seq<RadarPoint>)
    ensures |r| == 4
    ensures forall i :: 0 <= i < 4 ==>
      && r[i].subject == Label(MainCategories[i])
      && r[i].fullMark == 100
      && ReportsAverage(r[i].value, Average(t.Get(MainCategories[i])))
  {
    var r := seq(4, i requires 0 <= i < 4 => PointFor(t, MainCategories[i]));
    assert forall i :: 0 <= i < 4 ==> ReportsAverage(r[i].value, Average(t.Get(MainCategories[i]))) by {
      forall i | 0 <= i < 4
        ensures ReportsAverage(r[i].value, Average(t.Get(MainCategories[i])))
      {
        ReportsAverageUnique(r[i].value, Average(t.Get(MainCategories[i])));
      }
    }
    r
  }

  /** `defaultRadarData`: the four categories at 0. */
  const DefaultRadar: seq<RadarPoint> := [
    RadarPoint(Label(SocialEmotional), 0, 100),
    RadarPoint(Label(HealthWellbeing), 0, 100),
    RadarPoint(Label(Relationships), 0, 100),
    RadarPoint(Label(SchoolExperience), 0, 100)
  ]

  lemma AggregateSnoc(init: seq<Entry>, e: Entry)
    ensures Aggregate(init + [e]) == if Aggregate(init).None? then None else Step(Aggregate(init).value, e)
  {
    assert (init + [e])[..|init|] == init;
  }

  /** Sample social-emotional rows of the fine-to-macro table. */
  lemma SocialEmotionalKeys()
    ensures LookupDimension("optimism") == Mapped(SocialEmotional)
    ensures LookupDimension("grit") == Mapped(SocialEmotional)
    ensures LookupDimension("empathy") == Mapped(SocialEmotional)
  {
  }

  /** Sample health rows of the fine-to-macro table. */
  lemma HealthKeys()
    ensures LookupDimension("health") == Mapped(HealthWellbeing)
    ensures LookupDimension("sleep_quality") == Mapped(HealthWellbeing)
  {
  }

  /** A key the table does not list, and that no object inherits, is
      skipped. */
  lemma UnknownKeyUnmapped()
    ensures LookupDimension("mystery") == Unmapped
  {
  }

  /** A record with two social-emotional scores, one health score, a score
      under an unknown key and a non-numeric value under a known key: the
      unknown key and the non-number are skipped, the rest tally in. */
  lemma {:induction false} MixedRecord(k1: string, k2: string, k3: string, k4: string, k5: string,
                                       x1: real, x2: real, x3: real, x4: real)
    requires LookupDimension(k1) == Mapped(SocialEmotional) && LookupDimension(k2) == Mapped(SocialEmotional)
    requires LookupDimension(k3) == Mapped(HealthWellbeing) && LookupDimension(k4) == Unmapped
    requires LookupDimension(k5).Mapped?
    ensures Aggregate([Entry(k1, Num(x1)), Entry(k2, Num(x2)), Entry(k3, Num(x3)),
                       Entry(k4, Num(x4)), Entry(k5, Other)])
         == Some(Tallies(Tally(x1 + x2, 2), Tally(x3, 1), Tally(0.0, 0), Tally(0.0, 0)))
  {
    var e1 := [Entry(k1, Num(x1))];
    var e2 := e1 + [Entry(k2, Num(x2))];
    var e3 := e2 + [Entry(k3, Num(x3))];
    var e4 := e3 + [Entry(k4, Num(x4))];
    var e5 := e4 + [Entry(k5, Other)];
    var t1 := Tallies(Tally(x1, 1), Tally(0.0, 0), Tally(0.0, 0), Tally(0.0, 0));
    var t2 := Tallies(Tally(x1 + x2, 2), Tally(0.0, 0), Tally(0.0, 0), Tally(0.0, 0));
    var t3 := Tallies(Tally(x1 + x2, 2), Tally(x3, 1), Tally(0.0, 0), Tally(0.0, 0));
    AggregateSnoc([], Entry(k1, Num(x1)));
    assert [] + [Entry(k1, Num(x1))] == e1;
    assert Aggregate(e1) == Some(t1);
    AggregateSnoc(e1, Entry(k2, Num(x2)));
    assert Aggregate(e2) == Some(t2);
    AggregateSnoc(e2, Entry(k3, Num(x3)));
    assert Aggregate(e3) == Some(t3);
    AggregateSnoc(e3, Entry(k4, Num(x4)));
    assert Aggregate(e4) == Some(t3);
    AggregateSnoc(e4, Entry(k5, Other));
    assert Aggregate(e5) == Some(t3);
    assert e5 == [Entry(k1, Num(x1)), Entry(k2, Num(x2)), Entry(k3, Num(x3)),
                  Entry(k4, Num(x4)), Entry(k5, Other)];
  }

  /** The radar of such a record with scores 4, 3 and 5: an average of 3.5
      shows as 70, an average of 5 as 100, and the two empty categories at
      the floor value 20. */
  lemma WorkedProfile()
    ensures var p := Profile(Tallies(Tally(7.0, 2), Tally(5.0, 1), Tally(0.0, 0), Tally(0.0, 0)));
      p[0].value == 70 && p[1].value == 100 && p[2].value == 20 && p[3].value == 20
  {
    assert Normalize(3.5) == 70;
    assert Normalize(5.0) == 100;
    assert Normalize(0.0) == 0;
  }

  /** A negative score is not clamped: an average of -1 shows as -20. */
  lemma NegativeScoreShown()
    ensures Profile(Tallies(Tally(-2.0, 2), Tally(0.0, 0), Tally(0.0, 0), Tally(0.0, 0)))[0].value == -20
  {
    assert Normalize(-1.0) == -20;
  }

  // ---------------------------------------------------------------------------
  // Record choice
  // ---------------------------------------------------------------------------

  /** A row of `assessment_records`, with only the columns the page reads. */
  datatype AssessmentRecord = AssessmentRecord(assessmentId: string, aiAnalysis: Option<string>, score: Option<real>)

  predicate IsSurvey(r: AssessmentRecord)
  {
    r.assessmentId == "national-survey"
  }

  /** `r.ai_analysis` is truthy: present and not the empty string. */
  predicate HasAnalysis(r: AssessmentRecord)
  {
    r.aiAnalysis.Some? && r.aiAnalysis.value != ""
  }

  /** `Array.prototype.find`, as the index of the first match. */
  function FindFirst(rs: seq<AssessmentRecord>, p: AssessmentRecord -> bool): (i: Option<nat>)
    ensures i.Some? ==> i.value < |rs| && p(rs[i.value]) && forall j :: 0 <= j < i.value ==> !p(rs[j])
    ensures i.None? ==> forall j :: 0 <= j < |rs| ==> !p(rs[j])
  {
    if |rs| == 0 then None
    else if p(rs[0]) then Some(0)
    else match FindFirst(rs[1..], p)
      case None => None
      case Some(k) => Some(k + 1)
  }

  /** `surveyRecord || data.find(r => r.ai_analysis)`, as an index. */
  function ChosenIndex(rs: seq<AssessmentRecord>): Option<nat>
  {
    match FindFirst(rs, IsSurvey)
    case Some(i) => Some(i)
    case None => FindFirst(rs, HasAnalysis)
  }

  /** The first "national-survey" record wins, whether or not it carries an
      analysis; only when there is none is the first analysed record used. */
  lemma ChosenIndexPrecedence(rs: seq<AssessmentRecord>)
    ensures ChosenIndex(rs).Some? ==> ChosenIndex(rs).value < |rs|
    ensures (exists j :: 0 <= j < |rs| && IsSurvey(rs[j])) ==>
      && ChosenIndex(rs).Some?
      && IsSurvey(rs[ChosenIndex(rs).value])
      && forall j :: 0 <= j < ChosenIndex(rs).value ==> !IsSurvey(rs[j])
    ensures (forall j :: 0 <= j < |rs| ==> !IsSurvey(rs[j])) ==>
      && (ChosenIndex(rs).Some? <==> exists j :: 0 <= j < |rs| && HasAnalysis(rs[j]))
      && (ChosenIndex(rs).Some? ==>
            HasAnalysis(rs[ChosenIndex(rs).value])
            && forall j :: 0 <= j < ChosenIndex(rs).value ==> !HasAnalysis(rs[j]))
  {
  }

  /** The `chartData` that `processRadarData` stores, or `None` when it
      stores nothing: an empty list, no record chosen, a chosen record
      without analysis, a failed parse, or a throwing reduction. `parse` is
      `JSON.parse` followed by `Object.entries`, `None` when either throws. */
  function ComputedRadar(rs: seq<AssessmentRecord>, parse: string -> Option<seq<Entry>>): (r: Option<seq<RadarPoint>>)
    ensures r.Some? <==>
      && ChosenIndex(rs).Some? && ChosenIndex(rs).value < |rs|
      && HasAnalysis(rs[ChosenIndex(rs).value])
      && parse(rs[ChosenIndex(rs).value].aiAnalysis.value).Some?
      && Aggregate(parse(rs[ChosenIndex(rs).value].aiAnalysis.value).value).Some?
    ensures r.Some? ==>
      r.value == Profile(Aggregate(parse(rs[ChosenIndex(rs).value].aiAnalysis.value).value).value)
  {
    if |rs| == 0 then None
    else match ChosenIndex(rs)
      case None => None
      case Some(i) =>
        if i >= |rs| || !HasAnalysis(rs[i]) then None
        else match parse(rs[i].aiAnalysis.value)
          case None => None
          case Some(entries) =>
            match Aggregate(entries)
            case None => None
            case Some(t) => Some(Profile(t))
  }

  /** `radarDataToUse`: the computed profile when there is one, else the
      default. Always four points in category order; a computed profile never
      shows a 0, so the all-zero chart appears exactly when nothing was
      computed. */
  function RadarData(rs: seq<AssessmentRecord>, parse: string -> Option<seq<Entry>>): (r: seq<RadarPoint>)
    ensures |r| == 4
    ensures forall i :: 0 <= i < 4 ==> r[i].subject == Label(MainCategories[i]) && r[i].fullMark == 100
    ensures r == DefaultRadar <==> ComputedRadar(rs, parse).None?
  {
    ComputedRadarNotDefault(rs, parse);
    if ComputedRadar(rs, parse).Some? then ComputedRadar(rs, parse).value else DefaultRadar
  }

  lemma ComputedRadarNotDefault(rs: seq<AssessmentRecord>, parse: string -> Option<seq<Entry>>)
    ensures ComputedRadar(rs, parse).Some? ==>
      && |ComputedRadar(rs, parse).value| == 4
      && (forall i :: 0 <= i < 4 ==>
            ComputedRadar(rs, parse).value[i].subject == Label(MainCategories[i])
            && ComputedRadar(rs, parse).value[i].fullMark == 100)
      && ComputedRadar(rs, parse).value != DefaultRadar
  {
    if ComputedRadar(rs, parse).Some? {
      var p := ComputedRadar(rs, parse).value;
      assert p[0].value != 0;
      assert DefaultRadar[0].value == 0;
    }
  }

  /** A survey record without analysis hides every other record's analysis:
      the default chart is shown. */
  lemma SurveyWithoutAnalysisShowsDefault(rs: seq<AssessmentRecord>, parse: string -> Option<seq<Entry>>, i: nat)
    requires i < |rs| && IsSurvey(rs[i]) && !HasAnalysis(rs[i])
    requires forall j :: 0 <= j < i ==> !IsSurvey(rs[j])
    ensures RadarData(rs, parse) == DefaultRadar
  {
    assert FindFirst(rs, IsSurvey) == Some(i);
  }

  /** The first survey record, when it carries an analysis, is the one whose
      scores are shown, whatever the other records hold. */
  lemma SurveyRecordShown(rs: seq<AssessmentRecord>, parse: string -> Option<seq<Entry>>, i: nat, t: Tallies)
    requires i < |rs| && IsSurvey(rs[i]) && forall j :: 0 <= j < i ==> !IsSurvey(rs[j])
    requires HasAnalysis(rs[i])
    requires parse(rs[i].aiAnalysis.value).Some? && Aggregate(parse(rs[i].aiAnalysis.value).value) == Some(t)
    ensures RadarData(rs, parse) == Profile(t)
  {
    assert FindFirst(rs, IsSurvey) == Some(i);
  }

  /** With no survey record, the first analysed record's scores are shown. */
  lemma FirstAnalysedRecordShown(rs: seq<AssessmentRecord>, parse: string -> Option<seq<Entry>>, i: nat, t: Tallies)
    requires forall j :: 0 <= j < |rs| ==> !IsSurvey(rs[j])
    requires i < |rs| && HasAnalysis(rs[i]) && forall j :: 0 <= j < i ==> !HasAnalysis(rs[j])
    requires parse(rs[i].aiAnalysis.value).Some? && Aggregate(parse(rs[i].aiAnalysis.value).value) == Some(t)
    ensures RadarData(rs, parse) == Profile(t)
  {
    assert FindFirst(rs, HasAnalysis) == Some(i);
  }

  // ---------------------------------------------------------------------------
  // Trend
  // ---------------------------------------------------------------------------

  datatype TrendPoint = TrendPoint(name: string, score: real)

  /** `r.score || 0`. */
  function ScoreOrZero(r: AssessmentRecord): real
  {
    r.score.GetOr(0.0)
  }

  /** `第${n}次`, the ordinal label of a trend point. */
  function TrendLabel(n: nat): string
  {
    "第" + NatToDecimal(n) + "次"
  }

  lemma TrendLabelInjective(m: nat, n: nat)
    requires TrendLabel(m) == TrendLabel(n)
    ensures m == n
  {
    var a := NatToDecimal(m);
    var b := NatToDecimal(n);
    assert |a| == |b| by {
      assert |TrendLabel(m)| == |a| + 2;
      assert |TrendLabel(n)| == |b| + 2;
    }
    assert a == TrendLabel(m)[1..|a| + 1];
    assert b == TrendLabel(n)[1..|b| + 1];
    NatToDecimalInjective(m, n);
  }

  function Reverse<T>(s: seq<T>): (r: seq<T>)
    ensures |r| == |s|
    ensures forall i :: 0 <= i < |s| ==> r[i] == s[|s| - 1 - i]
  {
    if |s| == 0 then [] else Reverse(s[1..]) + [s[0]]
  }

  /** `trendData`: label each record by its position counted from the end,
      reverse into oldest-first order, keep the first ten. */
  function TrendData(rs: seq<AssessmentRecord>): (r: seq<TrendPoint>)
    ensures |r| == Min(|rs|, 10)
    ensures |rs| > 0 ==> r[0] == TrendPoint(TrendLabel(1), ScoreOrZero(rs[|rs| - 1]))
  {
    var labelled := seq(|rs|, k requires 0 <= k < |rs| => TrendPoint(TrendLabel(|rs| - k), ScoreOrZero(rs[k])));
    var reversed := Reverse(labelled);
    if |reversed| <= 10 then reversed else reversed[..10]
  }

  /** The trend of a newest-first history has min(N, 10) points; point i is
      labelled i + 1 and carries the score of the (i + 1)-th oldest record. */
  lemma TrendShape(rs: seq<AssessmentRecord>)
    ensures |TrendData(rs)| == Min(|rs|, 10)
    ensures forall i :: 0 <= i < |TrendData(rs)| ==>
      TrendData(rs)[i] == TrendPoint(TrendLabel(i + 1), ScoreOrZero(rs[|rs| - 1 - i]))
  {
  }

  /** The trend keeps the OLDEST ten records of a longer history: it is the
      trend of the last ten rows of the newest-first list. */
  lemma TrendKeepsOldestTen(rs: seq<AssessmentRecord>)
    requires |rs| > 10
    ensures TrendData(rs) == TrendData(rs[|rs| - 10..])
  {
    TrendShape(rs);
    TrendShape(rs[|rs| - 10..]);
  }

  /** No two trend points share a label. */
  lemma TrendLabelsDistinct(rs: seq<AssessmentRecord>, i: nat, j: nat)
    requires i < j < |TrendData(rs)|
    ensures TrendData(rs)[i].name != TrendData(rs)[j].name
  {
    TrendShape(rs);
    if TrendData(rs)[i].name == TrendData(rs)[j].name {
      TrendLabelInjective(i + 1, j + 1);
    }
  }

  // ---------------------------------------------------------------------------
  // The record list panel and the page as a whole
  // ---------------------------------------------------------------------------

  datatype Meta = Meta(title: string, category: string)

  /** `assessmentMeta`. */
  const AssessmentMetaTable: map<string, Meta> := map[
    "logic-01" := Meta("批判性思维与逻辑推理", "认知能力"),
    "national-survey" := Meta("全国中小学生发展情况调查", "综合调查"),
    "psy-01" := Meta("大五人格职业倾向分析", "心理测评")
  ]

  const UnknownMeta: Meta := Meta("未知测评", "其他")

  /** `assessmentMeta[id] || { title: "未知测评", category: "其他" }`. An
      inherited property name yields a truthy object without `title` or
      `category`, which render as nothing. */
  function AssessmentMeta(id: string): (m: Meta)
    ensures id in AssessmentMetaTable ==> m == AssessmentMetaTable[id]
    ensures id !in AssessmentMetaTable ==> (m == UnknownMeta <==> id !in ObjectPrototypeNames)
  {
    if id in AssessmentMetaTable then AssessmentMetaTable[id]
    else if id in ObjectPrototypeNames then Meta("", "")
    else UnknownMeta
  }

  /** The three catalogued assessments show their own title; any other
      identifier shows the "unknown" pair, except an inherited property name,
      which shows a blank title. */
  lemma AssessmentMetaCases(id: string)
    ensures id in AssessmentMetaTable ==> AssessmentMeta(id) == AssessmentMetaTable[id]
    ensures AssessmentMeta(id).title != "" <==> id !in ObjectPrototypeNames
    ensures AssessmentMeta(id) == UnknownMeta <==> id !in AssessmentMetaTable && id !in ObjectPrototypeNames
  {
  }

  /** What the page shows: the number of records, the latest score, the radar
      and the trend. */
  datatype View = View(recordCount: nat, latestScore: real, radar: seq<RadarPoint>, trend: seq<TrendPoint>)

  /** The page after its fetch: `fetched` is `None` when the query returned an
      error or no data, in which case `records` stays `[]`. */
  function DashboardView(fetched: Option<seq<AssessmentRecord>>, parse: string -> Option<seq<Entry>>): (v: View)
    ensures fetched.Some? ==> v.recordCount == |fetched.value|
    ensures fetched.Some? && |fetched.value| > 0 ==> v.latestScore == ScoreOrZero(fetched.value[0])
    ensures fetched.None? ==> v.recordCount == 0 && v.latestScore == 0.0
    ensures v.radar == RadarData(fetched.GetOr([]), parse) && v.trend == TrendData(fetched.GetOr([]))
    ensures |v.radar| == 4 && |v.trend| <= 10 && |v.trend| <= v.recordCount
  {
    var rs := fetched.GetOr([]);
    View(|rs|, if |rs| > 0 then ScoreOrZero(rs[0]) else 0.0, RadarData(rs, parse), TrendData(rs))
  }

  /** A failed fetch shows an empty history: no records, score 0, the
      all-zero radar and no trend points. */
  lemma FailedFetchShowsEmpty(parse: string -> Option<seq<Entry>>)
    ensures DashboardView(None, parse) == View(0, 0.0, DefaultRadar, [])
  {
  }
}
