/**
 * The per-metric aggregation shared by analyze_blood_pressure, analyze_blood_sugar,
 * analyze_cholesterol, analyze_bmi and the two halves of analyze_urine: once every row of
 * the filtered frame carries its category, the analysis is a value_counts() of the
 * category column, the same counts as a percentage of the frame's length, a gender x
 * category table (groupby + unstack(fill_value=0)) with each gender row divided by its
 * own total, and the mean age per category.
 */
module Cohort {
  import opened Wrappers
  import opened Tally

  /** A row of a filtered frame once its category column has been added. */
  datatype Labelled<C> = Labelled(category: C, gender: Option<string>, age: Option<real>)

  /**
   * The dictionary one analyze_* function returns. The gender table is kept row by row
   * (gender, then category); the source's to_dict() nests the same cells column first.
   */
  datatype MetricAnalysis<C> = MetricAnalysis(
    distribution: map<C, nat>,
    distributionPct: map<C, real>,
    byGender: map<string, map<C, nat>>,
    byGenderPct: map<string, map<C, real>>,
    avgAge: map<C, Option<real>>)

  // ---------------------------------------------------------------- columns and filters

  /** The category column of the frame. */
  function Column<C(==,!new)>(rows: seq<Labelled<C>>): (s: seq<C>)
    ensures |s| == |rows|
    ensures forall i :: 0 <= i < |rows| ==> s[i] == rows[i].category
  {
    seq(|rows|, i requires 0 <= i < |rows| => rows[i].category)
  }

  /** The GENDER column without its missing cells, in row order (what groupby keys on). */
  function Genders<C(==,!new)>(rows: seq<Labelled<C>>): (s: seq<string>)
    ensures |s| <= |rows|
    ensures forall g :: g in s <==> exists x :: x in rows && x.gender == Some(g)
  {
    if rows == [] then []
    else
      var tail := Genders(rows[1..]);
      assert forall x :: x in rows <==> x == rows[0] || x in rows[1..];
      match rows[0].gender
      case Some(g) => [g] + tail
      case None => tail
  }

  /** The rows of one gender group, in row order. */
  function OfGender<C(==,!new)>(rows: seq<Labelled<C>>, g: string): (r: seq<Labelled<C>>)
    ensures |r| <= |rows|
    ensures forall x :: x in r <==> x in rows && x.gender == Some(g)
  {
    if rows == [] then []
    else
      var tail := OfGender(rows[1..], g);
      assert forall x :: x in rows <==> x == rows[0] || x in rows[1..];
      if rows[0].gender == Some(g) then [rows[0]] + tail else tail
  }

  /** A gender group has as many rows as the gender occurs in the GENDER column. */
  lemma {:induction false} OfGenderSize<C(!new)>(rows: seq<Labelled<C>>, g: string)
    ensures |OfGender(rows, g)| == multiset(Genders(rows))[g]
  {
    if rows != [] {
      OfGenderSize(rows[1..], g);
    }
  }

  /** The categories that occur among rows whose gender is present: the table's columns. */
  function Columns<C(==,!new)>(rows: seq<Labelled<C>>): (cols: set<C>)
    ensures forall c :: c in cols <==> exists x :: x in rows && x.gender.Some? && x.category == c
  {
    set x | x in rows && x.gender.Some? :: x.category
  }

  /** The present ages of the rows labelled c, in row order (mean() skips NaN). */
  function AgesOf<C(==,!new)>(rows: seq<Labelled<C>>, c: C): (ages: seq<real>)
    ensures |ages| <= |rows|
    ensures ages == [] <==> forall x :: x in rows && x.category == c ==> x.age.None?
  {
    if rows == [] then []
    else
      var tail := AgesOf(rows[1..], c);
      assert forall x :: x in rows <==> x == rows[0] || x in rows[1..];
      if rows[0].category == c && rows[0].age.Some? then [rows[0].age.value] + tail else tail
  }

  lemma {:induction false} CountAtMostLength<C>(s: seq<C>, c: C)
    ensures multiset(s)[c] <= |s|
  {
    if s != [] {
      CountAtMostLength(s[1..], c);
      assert s == [s[0]] + s[1..];
    }
  }

  // ---------------------------------------------------------------- means

  function Total(xs: seq<real>): real {
    if xs == [] then 0.0 else xs[0] + Total(xs[1..])
  }

  /** Series.mean(): the average, or None (NaN) when there is nothing to average. */
  function Mean(xs: seq<real>): (m: Option<real>)
    ensures m.None? <==> xs == []
    ensures m.Some? ==> m.value * (|xs| as real) == Total(xs)
  {
    if xs == [] then None else Some(Total(xs) / |xs| as real)
  }

  lemma {:induction false} TotalBounds(xs: seq<real>, lo: real, hi: real)
    requires forall i :: 0 <= i < |xs| ==> lo <= xs[i] <= hi
    ensures lo * (|xs| as real) <= Total(xs) <= hi * (|xs| as real)
  {
    if xs != [] {
      TotalBounds(xs[1..], lo, hi);
      var n := |xs[1..]| as real;
      assert lo * (n + 1.0) == lo * n + lo;
      assert hi * (n + 1.0) == hi * n + hi;
    }
  }

  lemma ScaledBetween(t: real, n: real, lo: real, hi: real)
    requires n > 0.0
    requires lo * n <= t <= hi * n
    ensures lo <= t / n <= hi
  {
  }

  /** A mean age lies between the youngest and the oldest age it averages. */
  lemma MeanBetween(xs: seq<real>, lo: real, hi: real)
    requires forall i :: 0 <= i < |xs| ==> lo <= xs[i] <= hi
    ensures Mean(xs).Some? ==> lo <= Mean(xs).value <= hi
  {
    if xs != [] {
      TotalBounds(xs, lo, hi);
      ScaledBetween(Total(xs), |xs| as real, lo, hi);
    }
  }

  // ---------------------------------------------------------------- the analysis

  /**
   * groupby([GENDER, category]).size().unstack(fill_value=0) with the given columns: one
   * row per gender that occurs, holding that gender group's count for every column.
   */
  function GenderTable<C(==,!new)>(rows: seq<Labelled<C>>, cols: set<C>): (t: map<string, map<C, nat>>)
  {
    map g | g in Elements(Genders(rows)) :: CountsIn(Column(OfGender(rows, g)), cols)
  }

  /** table.div(table.sum(axis=1), axis=0) * 100, unrounded. */
  function GenderPercentages<C(==,!new)>(rows: seq<Labelled<C>>, cols: set<C>): (t: map<string, map<C, real>>)
    ensures t.Keys == GenderTable(rows, cols).Keys
  {
    var table := GenderTable(rows, cols);
    map g | g in table :: Percentages(table[g], |OfGender(rows, g)|)
  }

  /** groupby(category)[AGE].mean(). */
  function AverageAges<C(==,!new)>(rows: seq<Labelled<C>>): (avg: map<C, Option<real>>)
  {
    map c | c in Elements(Column(rows)) :: Mean(AgesOf(rows, c))
  }

  /** What one analyze_* function returns for its labelled, filtered frame. */
  function Analyze<C(==,!new)>(rows: seq<Labelled<C>>): (a: MetricAnalysis<C>)
  {
    var counts := Distribution(Column(rows));
    MetricAnalysis(counts, Percentages(counts, |rows|), GenderTable(rows, Columns(rows)),
                   GenderPercentages(rows, Columns(rows)), AverageAges(rows))
  }

  // ---------------------------------------------------------------- what the analysis means

  /**
   * A category has an entry iff some row carries it, and its count is the number of rows
   * that carry it, so a category with no rows is absent rather than zero.
   */
  lemma DistributionEntries<C(!new)>(rows: seq<Labelled<C>>)
    ensures var a := Analyze(rows);
      && (forall c :: c in a.distribution <==> exists i :: 0 <= i < |rows| && rows[i].category == c)
      && (forall c :: c in a.distribution ==> a.distribution[c] == multiset(Column(rows))[c] > 0)
  {
    var counts := Distribution(Column(rows));
    forall c ensures c in counts <==> exists i :: 0 <= i < |rows| && rows[i].category == c {
      if c in counts {
        var i :| 0 <= i < |Column(rows)| && Column(rows)[i] == c;
      }
    }
  }

  /**
   * The counts add up to the frame's length and, since every percentage divides by that
   * length, the percentages add up to 100.
   */
  lemma DistributionAddsUp<C(!new)>(rows: seq<Labelled<C>>)
    ensures var a := Analyze(rows);
      && Sum(AsReal(a.distribution)) == |rows| as real
      && a.distributionPct.Keys == a.distribution.Keys
      && (|rows| > 0 ==> Sum(a.distributionPct) == 100.0)
  {
    var counts := Distribution(Column(rows));
    DistributionTotal(Column(rows));
    if |rows| > 0 {
      PercentagesOfWholeTotal(counts, |rows|);
    }
  }

  /** Each overall percentage is the category's count over the frame's length, times 100. */
  lemma DistributionPercent<C(!new)>(rows: seq<Labelled<C>>, c: C)
    requires c in Analyze(rows).distribution
    ensures var a := Analyze(rows);
      && a.distributionPct[c] == (a.distribution[c] as real) / (|rows| as real) * 100.0
      && 0.0 < a.distributionPct[c] <= 100.0
  {
    var counts := Distribution(Column(rows));
    CountAtMostLength(Column(rows), c);
    PercentMeaning(counts[c], |rows|);
  }

  /** A gender table has a row for each gender that occurs, holding that group's counts. */
  lemma GenderTableShape<C(!new)>(rows: seq<Labelled<C>>, cols: set<C>, g: string)
    ensures var t := GenderTable(rows, cols);
      && (g in t <==> exists i :: 0 <= i < |rows| && rows[i].gender == Some(g))
      && GenderPercentages(rows, cols).Keys == t.Keys
      && (g in t ==>
            && t[g].Keys == cols
            && forall c :: c in t[g] ==> t[g][c] == multiset(Column(OfGender(rows, g)))[c])
  {
    if exists i :: 0 <= i < |rows| && rows[i].gender == Some(g) {
      var i :| 0 <= i < |rows| && rows[i].gender == Some(g);
      assert rows[i] in rows;
      assert g in Genders(rows);
    }
  }

  /**
   * When a gender table's columns cover every category of the gendered rows, each row adds
   * up to the size of that gender's group, and its percentages, which divide by that size,
   * add up to 100.
   */
  lemma GenderTableTotals<C(!new)>(rows: seq<Labelled<C>>, cols: set<C>, g: string)
    requires Columns(rows) <= cols
    requires g in GenderTable(rows, cols)
    ensures var t, pct := GenderTable(rows, cols), GenderPercentages(rows, cols);
      && |OfGender(rows, g)| > 0
      && Sum(AsReal(t[g])) == |OfGender(rows, g)| as real
      && Sum(pct[g]) == 100.0
  {
    var group := OfGender(rows, g);
    OfGenderSize(rows, g);
    GroupCovered(rows, cols, g);
    CountsTotal(Column(group), cols);
    PercentagesOfWholeTotal(CountsIn(Column(group), cols), |group|);
  }

  /** Each cell of a gender row's percentages is its count over the size of that gender's group. */
  lemma GenderPercent<C(!new)>(rows: seq<Labelled<C>>, cols: set<C>, g: string, c: C)
    requires g in GenderTable(rows, cols) && c in cols
    ensures var t, pct := GenderTable(rows, cols), GenderPercentages(rows, cols);
      && c in pct[g]
      && pct[g][c] == (t[g][c] as real) / (|OfGender(rows, g)| as real) * 100.0
  {
    OfGenderSize(rows, g);
  }

  lemma GroupCovered<C(!new)>(rows: seq<Labelled<C>>, cols: set<C>, g: string)
    requires Columns(rows) <= cols
    ensures forall i :: 0 <= i < |OfGender(rows, g)| ==> Column(OfGender(rows, g))[i] in cols
  {
    var group := OfGender(rows, g);
    forall i | 0 <= i < |group| ensures Column(group)[i] in cols {
      assert group[i] in group;
      assert group[i] in rows && group[i].gender.Some?;
      assert group[i].category in Columns(rows);
    }
  }

  /**
   * In a metric's analysis the gender table's columns are the categories that occur among
   * rows with a gender, so every row of it adds up to its group and its percentages to 100.
   */
  lemma AnalyzeByGender<C(!new)>(rows: seq<Labelled<C>>, g: string)
    ensures var a := Analyze(rows);
      && (g in a.byGender <==> exists i :: 0 <= i < |rows| && rows[i].gender == Some(g))
      && a.byGenderPct.Keys == a.byGender.Keys
      && (g in a.byGender ==>
            && a.byGender[g].Keys == Columns(rows)
            && (forall c :: c in a.byGender[g] ==> a.byGender[g][c] == multiset(Column(OfGender(rows, g)))[c])
            && Sum(AsReal(a.byGender[g])) == |OfGender(rows, g)| as real
            && Sum(a.byGenderPct[g]) == 100.0)
  {
    GenderTableShape(rows, Columns(rows), g);
    if g in Analyze(rows).byGender {
      GenderTableTotals(rows, Columns(rows), g);
    }
  }

  /** The gender groups' sizes, keyed by the genders that occur. */
  function GroupSizeMap<C(==,!new)>(rows: seq<Labelled<C>>): (sizes: map<string, real>)
    ensures sizes.Keys == Elements(Genders(rows))
  {
    map g | g in Elements(Genders(rows)) :: |OfGender(rows, g)| as real
  }

  /** Two dictionaries with the same keys and the same value at each key are equal. */
  lemma SameEntries<K>(m1: map<K, real>, m2: map<K, real>)
    requires m1.Keys == m2.Keys
    requires forall k :: k in m1 ==> m1[k] == m2[k]
    ensures m1 == m2
  {
  }

  /** The size of each gender group, keyed like the gender table, is value_counts() of GENDER. */
  lemma GroupSizes<C(!new)>(rows: seq<Labelled<C>>)
    ensures GroupSizeMap(rows) == AsReal(Distribution(Genders(rows)))
  {
    var sizes, d := GroupSizeMap(rows), AsReal(Distribution(Genders(rows)));
    GroupSizeKeys(rows);
    GroupSizeValues(rows);
    SameEntries(sizes, d);
  }

  lemma GroupSizeKeys<C(!new)>(rows: seq<Labelled<C>>)
    ensures GroupSizeMap(rows).Keys == AsReal(Distribution(Genders(rows))).Keys
  {
    var counts := Distribution(Genders(rows));
    assert AsReal(counts).Keys == counts.Keys;
  }

  lemma GroupSizeValues<C(!new)>(rows: seq<Labelled<C>>)
    ensures forall g :: g in GroupSizeMap(rows) && g in AsReal(Distribution(Genders(rows))) ==>
      GroupSizeMap(rows)[g] == AsReal(Distribution(Genders(rows)))[g]
  {
    var sizes, counts := GroupSizeMap(rows), Distribution(Genders(rows));
    forall g | g in sizes && g in AsReal(counts)
      ensures sizes[g] == AsReal(counts)[g]
    {
      OfGenderSize(rows, g);
    }
  }

  /**
   * Rows whose gender is missing are dropped by groupby: the gender rows together hold
   * exactly the rows that have a gender, which is every row only when no gender is missing.
   */
  lemma MissingGenderExcluded<C(!new)>(rows: seq<Labelled<C>>)
    ensures var t := Analyze(rows).byGender;
      && Sum(map g | g in t :: |OfGender(rows, g)| as real) == |Genders(rows)| as real
      && (|Genders(rows)| == |rows| <==> forall i :: 0 <= i < |rows| ==> rows[i].gender.Some?)
  {
    GroupSizesTotal(rows);
    GendersAllPresent(rows);
  }

  /** The gender groups' sizes add up to the number of rows that have a gender. */
  lemma GroupSizesTotal<C(!new)>(rows: seq<Labelled<C>>)
    ensures Sum(map g | g in Analyze(rows).byGender :: |OfGender(rows, g)| as real) == |Genders(rows)| as real
  {
    var t := Analyze(rows).byGender;
    assert t.Keys == Elements(Genders(rows));
    assert (map g | g in t :: |OfGender(rows, g)| as real) == GroupSizeMap(rows);
    GroupSizes(rows);
    DistributionTotal(Genders(rows));
  }

  lemma {:induction false} GendersAllPresent<C(!new)>(rows: seq<Labelled<C>>)
    ensures |Genders(rows)| == |rows| <==> forall i :: 0 <= i < |rows| ==> rows[i].gender.Some?
  {
    if rows != [] {
      GendersAllPresent(rows[1..]);
      if rows[0].gender.Some? {
        assert forall i :: 1 <= i < |rows| ==> rows[i] == rows[1..][i - 1];
      } else {
        assert |Genders(rows[1..])| <= |rows[1..]|;
      }
    }
  }

  /**
   * Mean ages are reported for exactly the categories of the distribution; a category's mean
   * is missing iff none of its rows has an age, and otherwise lies within its rows' ages.
   */
  lemma AnalyzeAverageAge<C(!new)>(rows: seq<Labelled<C>>, c: C, lo: real, hi: real)
    requires forall i :: 0 <= i < |rows| && rows[i].age.Some? ==> lo <= rows[i].age.value <= hi
    ensures var a := Analyze(rows);
      && a.avgAge.Keys == a.distribution.Keys
      && (c in a.avgAge ==>
            && (a.avgAge[c].None? <==> forall x :: x in rows && x.category == c ==> x.age.None?)
            && (a.avgAge[c].Some? ==> lo <= a.avgAge[c].value <= hi))
  {
    var a := Analyze(rows);
    if c in a.avgAge {
      var ages := AgesOf(rows, c);
      AgesWithin(rows, c, lo, hi);
      MeanBetween(ages, lo, hi);
    }
  }

  lemma {:induction false} AgesWithin<C(!new)>(rows: seq<Labelled<C>>, c: C, lo: real, hi: real)
    requires forall i :: 0 <= i < |rows| && rows[i].age.Some? ==> lo <= rows[i].age.value <= hi
    ensures forall i :: 0 <= i < |AgesOf(rows, c)| ==> lo <= AgesOf(rows, c)[i] <= hi
  {
    if rows != [] {
      AgesWithin(rows[1..], c, lo, hi);
    }
  }
}
