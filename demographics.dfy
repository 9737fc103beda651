/** `calculate_demographic_data` of `demographic_data_analyzer/main.py`: the
    statistics of a census table with one record per person. The table
    arrives already parsed; every statistic is computed from the same
    records, and the whole computation fails with the first error Python
    would raise (a division by zero for an empty subset, an index or key
    lookup into an empty result). */
module DemographicDataAnalyzer {
  import opened Outcome
  import opened Reductions
  import opened Counting

  /** One row of the census table: the columns the computation reads. */
  datatype Person = Person(
    age: int,
    education: string,
    occupation: string,
    race: string,
    sex: string,
    hoursPerWeek: int,
    nativeCountry: string,
    salary: string)

  /** The education levels the source counts as advanced. */
  const AdvancedEducation: seq<string> := ["Bachelors", "Masters", "Doctorate"]

  predicate IsMale(x: Person) { x.sex == "Male" }
  predicate IsBachelors(x: Person) { x.education == "Bachelors" }
  predicate IsAdvanced(x: Person) { x.education in AdvancedEducation }
  predicate IsLowerEducation(x: Person) { x.education !in AdvancedEducation }
  predicate IsRich(x: Person) { x.salary == ">50K" }
  predicate IsIndianHighEarner(x: Person) { x.nativeCountry == "India" && x.salary == ">50K" }
  predicate IsAdvancedRich(x: Person) { IsAdvanced(x) && IsRich(x) }
  predicate IsLowerRich(x: Person) { IsLowerEducation(x) && IsRich(x) }

  function Race(x: Person): string { x.race }
  function Age(x: Person): int { x.age }
  function HoursPerWeek(x: Person): int { x.hoursPerWeek }
  function NativeCountry(x: Person): string { x.nativeCountry }
  function Occupation(x: Person): string { x.occupation }

  /** The rows that satisfy `p`, in their original order (a boolean mask). */
  function Filter(rows: seq<Person>, p: Person -> bool): (r: seq<Person>)
    ensures |r| <= |rows|
    ensures forall i :: 0 <= i < |r| ==> p(r[i])
  {
    if rows == [] then []
    else (if p(rows[0]) then [rows[0]] else []) + Filter(rows[1..], p)
  }

  /** Every row that satisfies `p` is kept. */
  lemma {:induction false} FilterKeeps(rows: seq<Person>, p: Person -> bool, k: int)
    requires 0 <= k < |rows| && p(rows[k])
    ensures rows[k] in Filter(rows, p)
  {
    if k > 0 {
      FilterKeeps(rows[1..], p, k - 1);
    }
  }

  /** A mask and its negation (`df[m]` and `df[~m]`) split the table: every
      row lands in exactly one of the two parts, so their sizes add up to the
      size of the table. */
  lemma {:induction false} Partition(rows: seq<Person>, p: Person -> bool, q: Person -> bool)
    requires forall x :: q(x) <==> !p(x)
    ensures multiset(Filter(rows, p)) + multiset(Filter(rows, q)) == multiset(rows)
    ensures |Filter(rows, p)| + |Filter(rows, q)| == |rows|
  {
    if rows != [] {
      var x := rows[0];
      Partition(rows[1..], p, q);
      assert rows == [x] + rows[1..];
      if p(x) {
        assert Filter(rows, p) == [x] + Filter(rows[1..], p);
        assert Filter(rows, q) == Filter(rows[1..], q);
      } else {
        assert Filter(rows, p) == Filter(rows[1..], p);
        assert Filter(rows, q) == [x] + Filter(rows[1..], q);
      }
    }
    assert |multiset(Filter(rows, p)) + multiset(Filter(rows, q))| == |multiset(rows)|;
  }

  /** Filtering twice is filtering by both conditions. */
  lemma {:induction false} FilterTwice(rows: seq<Person>, p: Person -> bool, q: Person -> bool, both: Person -> bool)
    requires forall x :: both(x) <==> p(x) && q(x)
    ensures Filter(Filter(rows, p), q) == Filter(rows, both)
  {
    if rows != [] {
      FilterTwice(rows[1..], p, q, both);
      var once := Filter(rows, p);
      if p(rows[0]) {
        assert once == [rows[0]] + Filter(rows[1..], p);
        assert once[1..] == Filter(rows[1..], p);
      } else {
        assert once == Filter(rows[1..], p);
      }
    }
  }

  /** A text column of the table, `df[column]`: one entry per row, in row order. */
  function Text(rows: seq<Person>, column: Person -> string): (vs: seq<string>)
    ensures |vs| == |rows|
    ensures forall i :: 0 <= i < |rows| ==> vs[i] == column(rows[i])
  {
    if rows == [] then [] else [column(rows[0])] + Text(rows[1..], column)
  }

  /** A numeric column of the table: one entry per row, in row order. It is
      kept apart from `Text` rather than made generic, because the
      membership proofs about country columns go through reliably only
      over a column typed `seq<string>`. */
  function Numbers(rows: seq<Person>, column: Person -> int): (vs: seq<int>)
    ensures |vs| == |rows|
    ensures forall i :: 0 <= i < |rows| ==> vs[i] == column(rows[i])
  {
    if rows == [] then [] else [column(rows[0])] + Numbers(rows[1..], column)
  }

  /** How often a value occurs in a column is the number of rows whose
      column holds it. */
  lemma {:induction false} CountIsFilterSize(rows: seq<Person>, column: Person -> string, v: string, p: Person -> bool)
    requires forall x :: p(x) <==> column(x) == v
    ensures Count(Text(rows, column), v) == |Filter(rows, p)|
  {
    if rows != [] {
      CountIsFilterSize(rows[1..], column, v, p);
      assert Text(rows, column)[1..] == Text(rows[1..], column);
    }
  }

  /** `v` is `part` out of `whole`, in percent. */
  predicate IsPercentage(v: real, part: nat, whole: nat)
  {
    whole > 0 && v * whole as real == 100.0 * part as real
  }

  /** `part / whole * 100` as Python computes it on two row counts: a
      `ZeroDivisionError` when `whole` is zero; otherwise a percentage, which
      lies between 0 and 100 when the part is no larger than the whole. */
  function Percentage(part: nat, whole: nat): (r: Result<real>)
    ensures r.Err? <==> whole == 0
    ensures r.Err? ==> r.error == ZeroDivisionError
    ensures r.Ok? ==> IsPercentage(r.value, part, whole)
    ensures r.Ok? && part <= whole ==> 0.0 <= r.value <= 100.0
  {
    if whole == 0 then Err(ZeroDivisionError)
    else
      var w := whole as real;
      assert part as real / w * w == part as real;
      Ok(part as real / w * 100.0)
  }

  /** 1. `race_count`: `value_counts()` of the race column. Every race that
      occurs has exactly one entry, whose count is the number of rows of that
      race; the counts add up to the number of rows, most frequent first. */
  function RaceCount(rows: seq<Person>): (r: seq<Tally>)
    ensures forall x :: x in Values(r) <==> x in Text(rows, Race)
    ensures NoDuplicates(Values(r))
    ensures forall i :: 0 <= i < |r| ==> r[i].count >= 1 && r[i].count == Count(Text(rows, Race), r[i].value)
    ensures forall i, j :: 0 <= i < j < |r| ==> r[i].count >= r[j].count
    ensures TotalCount(r) == |rows|
  {
    ValueCounts(Text(rows, Race))
  }

  /** 2. `average_age_men`: the mean age of the men. With no man in the
      table pandas yields NaN rather than an error; `None` stands for it. The
      mean lies between the youngest and the oldest man's age. */
  function AverageAgeMen(rows: seq<Person>): (r: Option<real>)
    ensures r.None? <==> Filter(rows, IsMale) == []
    ensures r.Some? ==> var ages := Numbers(Filter(rows, IsMale), Age);
      && IsMeanOf(r.value, ages)
      && Min(ages) as real <= r.value <= Max(ages) as real
  {
    var men := Filter(rows, IsMale);
    if men == [] then None
    else
      var ages := Numbers(men, Age);
      MeanBounds(ages);
      MeanTimesCount(ages);
      Some(Mean(ages))
  }

  /** 3. `percentage_bachelors`: the share of rows with a Bachelors degree;
      a division by zero on an empty table. */
  function PercentageBachelors(rows: seq<Person>): (r: Result<real>)
    ensures r.Err? <==> |rows| == 0
    ensures r.Err? ==> r.error == ZeroDivisionError
    ensures r.Ok? ==> 0.0 <= r.value <= 100.0
    ensures r.Ok? ==> IsPercentage(r.value, |Filter(rows, IsBachelors)|, |rows|)
  {
    Percentage(|Filter(rows, IsBachelors)|, |rows|)
  }

  /** The share of high earners in a part of the table: a division by zero
      when the part is empty. */
  function RichShare(part: seq<Person>): (r: Result<real>)
    ensures r.Err? <==> part == []
    ensures r.Err? ==> r.error == ZeroDivisionError
    ensures r.Ok? ==> 0.0 <= r.value <= 100.0
    ensures r.Ok? ==> IsPercentage(r.value, |Filter(part, IsRich)|, |part|)
  {
    Percentage(|Filter(part, IsRich)|, |part|)
  }

  /** 4. `higher_education_rich`: the share of high earners among the rows
      with advanced education; a division by zero when there is none. */
  function HigherEducationRich(rows: seq<Person>): (r: Result<real>)
    ensures r.Err? <==> Filter(rows, IsAdvanced) == []
    ensures r.Err? ==> r.error == ZeroDivisionError
    ensures r.Ok? ==> 0.0 <= r.value <= 100.0
    ensures r.Ok? ==> IsPercentage(r.value, |Filter(rows, IsAdvancedRich)|, |Filter(rows, IsAdvanced)|)
  {
    var advanced := Filter(rows, IsAdvanced);
    FilterTwice(rows, IsAdvanced, IsRich, IsAdvancedRich);
    RichShare(advanced)
  }

  /** 5. `lower_education_rich`: the share of high earners among the other
      rows; a division by zero when every row has advanced education. */
  function LowerEducationRich(rows: seq<Person>): (r: Result<real>)
    ensures r.Err? <==> Filter(rows, IsLowerEducation) == []
    ensures r.Err? ==> r.error == ZeroDivisionError
    ensures r.Ok? ==> 0.0 <= r.value <= 100.0
    ensures r.Ok? ==> IsPercentage(r.value, |Filter(rows, IsLowerRich)|, |Filter(rows, IsLowerEducation)|)
  {
    var lower := Filter(rows, IsLowerEducation);
    FilterTwice(rows, IsLowerEducation, IsRich, IsLowerRich);
    RichShare(lower)
  }

  /** The advanced and the lower education rows split the table, and so do
      their high earners. */
  lemma EducationSplit(rows: seq<Person>)
    ensures |Filter(rows, IsAdvanced)| + |Filter(rows, IsLowerEducation)| == |rows|
    ensures multiset(Filter(rows, IsAdvanced)) + multiset(Filter(rows, IsLowerEducation)) == multiset(rows)
    ensures |Filter(Filter(rows, IsAdvanced), IsRich)| + |Filter(Filter(rows, IsLowerEducation), IsRich)|
         == |Filter(rows, IsRich)|
  {
    Partition(rows, IsAdvanced, IsLowerEducation);
    var rich := Filter(rows, IsRich);
    Partition(rich, IsAdvanced, IsLowerEducation);
    FilterTwice(rows, IsAdvanced, IsRich, IsAdvancedRich);
    FilterTwice(rows, IsRich, IsAdvanced, IsAdvancedRich);
    FilterTwice(rows, IsLowerEducation, IsRich, IsLowerRich);
    FilterTwice(rows, IsRich, IsLowerEducation, IsLowerRich);
  }

  /** 6. `min_work_hours`: the fewest weekly hours anyone works. It is one
      row's hours and no row works fewer; pandas yields NaN (`None`) for an
      empty table. */
  function MinWorkHours(rows: seq<Person>): (r: Option<int>)
    ensures r.None? <==> |rows| == 0
    ensures r.Some? ==> exists i :: 0 <= i < |rows| && rows[i].hoursPerWeek == r.value
    ensures r.Some? ==> forall i :: 0 <= i < |rows| ==> r.value <= rows[i].hoursPerWeek
  {
    if rows == [] then None
    else
      var hours := Numbers(rows, HoursPerWeek);
      var m := Min(hours);
      var k :| 0 <= k < |hours| && hours[k] == m;
      assert rows[k].hoursPerWeek == m;
      Some(m)
  }

  /** The rows that work exactly `hours` hours a week. */
  function WorkingExactly(rows: seq<Person>, hours: int): (r: seq<Person>)
    ensures |r| <= |rows|
    ensures forall i :: 0 <= i < |r| ==> r[i].hoursPerWeek == hours
    ensures (exists k :: 0 <= k < |rows| && rows[k].hoursPerWeek == hours) ==> r != []
  {
    if rows == [] then []
    else (if rows[0].hoursPerWeek == hours then [rows[0]] else []) + WorkingExactly(rows[1..], hours)
  }

  /** `WorkingExactly` keeps every row with those hours, as often as the
      table holds it, and no other row. */
  lemma {:induction false} WorkingExactlyKeepsAll(rows: seq<Person>, hours: int)
    ensures forall x :: (multiset(WorkingExactly(rows, hours))[x]
      == if x.hoursPerWeek == hours then multiset(rows)[x] else 0)
  {
    if rows != [] {
      WorkingExactlyKeepsAll(rows[1..], hours);
      assert rows == [rows[0]] + rows[1..];
      var head := if rows[0].hoursPerWeek == hours then [rows[0]] else [];
      assert WorkingExactly(rows, hours) == head + WorkingExactly(rows[1..], hours);
    }
  }

  /** 7. `rich_percentage`: the share of high earners among the rows that
      work the fewest hours. Those rows exist whenever the table is not
      empty; on an empty table the minimum is NaN, no row matches it, and
      the division fails. */
  function RichPercentage(rows: seq<Person>): (r: Result<real>)
    ensures r.Err? <==> |rows| == 0
    ensures r.Err? ==> r.error == ZeroDivisionError
    ensures r.Ok? ==> 0.0 <= r.value <= 100.0
    ensures r.Ok? ==> var least := WorkingExactly(rows, MinWorkHours(rows).value);
      IsPercentage(r.value, |Filter(least, IsRich)|, |least|)
  {
    match MinWorkHours(rows)
    case None => Err(ZeroDivisionError)
    case Some(m) => RichShare(WorkingExactly(rows, m))
  }

  /** The high earners of `country`. */
  function RichIn(rows: seq<Person>, country: string): nat
  {
    Count(Text(Filter(rows, IsRich), NativeCountry), country)
  }

  /** The rows of `country`. */
  function PeopleIn(rows: seq<Person>, country: string): nat
  {
    Count(Text(rows, NativeCountry), country)
  }

  /** A country has no more high earners than people. */
  lemma {:induction false} RichAtMostPeople(rows: seq<Person>, country: string)
    ensures RichIn(rows, country) <= PeopleIn(rows, country)
  {
    var column := NativeCountry;
    if rows != [] {
      RichAtMostPeople(rows[1..], country);
      var all, rich := Text(rows, column), Filter(rows, IsRich);
      assert all == [rows[0].nativeCountry] + Text(rows[1..], column);
      assert Count(all, country) == (if rows[0].nativeCountry == country then 1 else 0) + PeopleIn(rows[1..], country);
      if IsRich(rows[0]) {
        assert rich == [rows[0]] + Filter(rows[1..], IsRich);
        assert rich[1..] == Filter(rows[1..], IsRich);
        assert Text(rich, column) == [rows[0].nativeCountry] + Text(Filter(rows[1..], IsRich), column);
      } else {
        assert rich == Filter(rows[1..], IsRich);
      }
    }
  }

  /** One entry of `country_percentages`. */
  datatype Share = Share(country: string, percentage: real)

  /** The count recorded for `v` in a list of tallies, if any (label lookup
      in a `value_counts()` result). */
  function Lookup(tallies: seq<Tally>, v: string): (r: Option<nat>)
    ensures r.None? <==> v !in Values(tallies)
    ensures r.Some? ==> Tally(v, r.value) in tallies
  {
    if tallies == [] then None
    else if tallies[0].value == v then Some(tallies[0].count)
    else
      assert Values(tallies) == [tallies[0].value] + Values(tallies[1..]);
      assert tallies == [tallies[0]] + tallies[1..];
      Lookup(tallies[1..], v)
  }

  /** Looking a value up in `value_counts()` finds its number of occurrences. */
  lemma LookupValueCounts(s: seq<string>, v: string)
    ensures Lookup(ValueCounts(s), v) == if v in s then Some(Count(s, v)) else None
  {
  }

  /** `country_salary_counts / country_total_counts * 100` with `fillna(0)`,
      one entry per entry of `totals`: a country missing from `richCounts`
      divides NaN and is filled with 0. */
  function Shares(totals: seq<Tally>, richCounts: seq<Tally>): (r: seq<Share>)
    requires forall i :: 0 <= i < |totals| ==> totals[i].count >= 1
    ensures |r| == |totals|
    ensures forall i :: 0 <= i < |r| ==> r[i].country == totals[i].value
    ensures forall i :: 0 <= i < |r| ==>
      (r[i].percentage == match Lookup(richCounts, totals[i].value)
        case None => 0.0
        case Some(k) => k as real / totals[i].count as real * 100.0)
  {
    if totals == [] then []
    else
      var t := totals[0];
      var pct := match Lookup(richCounts, t.value)
        case None => 0.0
        case Some(k) => k as real / t.count as real * 100.0;
      [Share(t.value, pct)] + Shares(totals[1..], richCounts)
  }

  /** `country_percentages`: one entry per country of the table, holding
      the share of its people who are high earners; the `fillna(0)` entries
      are exactly the countries without high earners, and agree with the
      division. Every share is between 0 and 100. */
  function CountryPercentages(rows: seq<Person>): (r: seq<Share>)
    ensures |r| == 0 <==> |rows| == 0
    ensures forall i :: 0 <= i < |r| ==> r[i].country in Text(rows, NativeCountry)
    ensures forall k :: 0 <= k < |rows| ==> exists i :: 0 <= i < |r| && r[i].country == rows[k].nativeCountry
    ensures forall i :: 0 <= i < |r| ==>
      var c := r[i].country;
      && IsPercentage(r[i].percentage, RichIn(rows, c), PeopleIn(rows, c))
      && 0.0 <= r[i].percentage <= 100.0
  {
    var totals := ValueCounts(Text(rows, NativeCountry));
    var richCounts := ValueCounts(Text(Filter(rows, IsRich), NativeCountry));
    var r := Shares(totals, richCounts);
    SharesArePercentages(rows, totals, richCounts, r);
    SharesCoverCountries(rows, totals, r);
    r
  }

  /** Every entry of `Shares` is its country's share of high earners. */
  lemma SharesArePercentages(rows: seq<Person>, totals: seq<Tally>, richCounts: seq<Tally>, r: seq<Share>)
    requires forall i :: 0 <= i < |totals| ==> totals[i].count == PeopleIn(rows, totals[i].value) && totals[i].count >= 1
    requires richCounts == ValueCounts(Text(Filter(rows, IsRich), NativeCountry))
    requires |r| == |totals|
    requires forall i :: 0 <= i < |r| ==> r[i].country == totals[i].value
    requires forall i :: 0 <= i < |r| ==>
      (r[i].percentage == match Lookup(richCounts, totals[i].value)
        case None => 0.0
        case Some(k) => k as real / totals[i].count as real * 100.0)
    ensures forall i :: 0 <= i < |r| ==>
      var c := r[i].country;
      && IsPercentage(r[i].percentage, RichIn(rows, c), PeopleIn(rows, c))
      && 0.0 <= r[i].percentage <= 100.0
  {
    forall i | 0 <= i < |r|
      ensures IsPercentage(r[i].percentage, RichIn(rows, r[i].country), PeopleIn(rows, r[i].country))
      ensures 0.0 <= r[i].percentage <= 100.0
    {
      ShareOfCountry(rows, totals[i].value, totals[i], richCounts, r[i].percentage);
    }
  }

  /** The countries of `Shares` are those of the table, each row's among them. */
  lemma SharesCoverCountries(rows: seq<Person>, totals: seq<Tally>, r: seq<Share>)
    requires forall x :: x in Values(totals) <==> x in Text(rows, NativeCountry)
    requires |r| == |totals| && forall i :: 0 <= i < |r| ==> r[i].country == totals[i].value
    ensures |r| == 0 <==> |rows| == 0
    ensures forall i :: 0 <= i < |r| ==> r[i].country in Text(rows, NativeCountry)
    ensures forall k :: 0 <= k < |rows| ==> exists i :: 0 <= i < |r| && r[i].country == rows[k].nativeCountry
  {
    var column, values := Text(rows, NativeCountry), Values(totals);
    forall i | 0 <= i < |r|
      ensures r[i].country in column
    {
      assert values[i] == r[i].country;
    }
    forall k | 0 <= k < |rows|
      ensures exists i :: 0 <= i < |r| && r[i].country == rows[k].nativeCountry
    {
      assert column[k] == rows[k].nativeCountry;
      assert column[k] in column;
      assert column[k] in values;
      var i :| 0 <= i < |values| && values[i] == column[k];
      assert r[i].country == values[i];
    }
    if |r| > 0 {
      assert values[0] in values;
    }
  }

  /** The entry of one country, whichever branch of `fillna` produced it. */
  lemma ShareOfCountry(rows: seq<Person>, c: string, total: Tally, richCounts: seq<Tally>, pct: real)
    requires total.value == c && total.count == PeopleIn(rows, c) && total.count >= 1
    requires richCounts == ValueCounts(Text(Filter(rows, IsRich), NativeCountry))
    requires pct == match Lookup(richCounts, c)
      case None => 0.0
      case Some(k) => k as real / total.count as real * 100.0
    ensures IsPercentage(pct, RichIn(rows, c), total.count)
    ensures 0.0 <= pct <= 100.0
  {
    var rich := Text(Filter(rows, IsRich), NativeCountry);
    LookupValueCounts(rich, c);
    RichAtMostPeople(rows, c);
    if c in rich {
      var p := Percentage(RichIn(rows, c), total.count);
      assert p.value == pct;
    } else {
      assert RichIn(rows, c) == 0;
    }
  }

  /** An entry with the largest percentage (`sort_values(ascending=False)`
      followed by taking the first entry; which of several equal entries
      comes first is not fixed). */
  function Highest(shares: seq<Share>): (h: Share)
    requires |shares| > 0
    ensures h in shares
    ensures forall i :: 0 <= i < |shares| ==> shares[i].percentage <= h.percentage
  {
    if |shares| == 1 then shares[0]
    else
      var rest := Highest(shares[1..]);
      if shares[0].percentage >= rest.percentage then shares[0] else rest
  }

  /** 8. `highest_earning_country` and its percentage: a country of the
      table whose share of high earners no country exceeds; indexing the
      empty result of an empty table raises `IndexError`. */
  function HighestEarningCountry(rows: seq<Person>): (r: Result<Share>)
    ensures r.Err? <==> |rows| == 0
    ensures r.Err? ==> r.error == IndexError
    ensures r.Ok? ==> r.value in CountryPercentages(rows)
    ensures r.Ok? ==> r.value.country in Text(rows, NativeCountry)
    ensures r.Ok? ==> forall s :: s in CountryPercentages(rows) ==> s.percentage <= r.value.percentage
    ensures r.Ok? ==> 0.0 <= r.value.percentage <= 100.0
  {
    var shares := CountryPercentages(rows);
    if shares == [] then Err(IndexError)
    else
      Ok(Highest(shares))
  }

  /** 9. `top_occ_india`: a most frequent occupation among the high earners
      born in India; `mode()[0]` of an empty selection raises `KeyError`. */
  function TopOccIndia(rows: seq<Person>): (r: Result<string>)
    ensures r.Err? <==> Filter(rows, IsIndianHighEarner) == []
    ensures r.Err? ==> r.error == KeyError
    ensures r.Ok? ==> var occupations := Text(Filter(rows, IsIndianHighEarner), Occupation);
      && r.value in occupations
      && forall o :: Count(occupations, o) <= Count(occupations, r.value)
  {
    match Mode(Text(Filter(rows, IsIndianHighEarner), Occupation))
    case None => Err(KeyError)
    case Some(o) => Ok(o)
  }

  /** The dictionary the source returns. */
  datatype Report = Report(
    raceCount: seq<Tally>,
    averageAgeMen: Option<real>,
    percentageBachelors: real,
    higherEducationRich: real,
    lowerEducationRich: real,
    minWorkHours: int,
    richPercentage: real,
    highestEarningCountry: string,
    highestEarningCountryPercentage: real,
    topOccIndia: string)

  /** `calculate_demographic_data` on a parsed table: the ten statistics in
      the order the source computes them, or the first error raised. An
      empty table, a table without advanced education and a table with only
      advanced education stop at a division by zero; a table without a high
      earner born in India stops at the `mode()[0]` lookup. */
  function CalculateDemographicData(rows: seq<Person>): (r: Result<Report>)
    ensures r.Err? <==> Filter(rows, IsAdvanced) == [] || Filter(rows, IsLowerEducation) == []
                         || Filter(rows, IsIndianHighEarner) == []
    ensures Filter(rows, IsAdvanced) == [] || Filter(rows, IsLowerEducation) == [] ==> r == Err(ZeroDivisionError)
    ensures (&& Filter(rows, IsAdvanced) != []
             && Filter(rows, IsLowerEducation) != []
             && Filter(rows, IsIndianHighEarner) == []) ==> r == Err(KeyError)
    ensures r.Ok? ==> TotalCount(r.value.raceCount) == |rows|
    ensures r.Ok? ==> (r.value.averageAgeMen.Some? <==> Filter(rows, IsMale) != [])
    ensures r.Ok? ==> 0.0 <= r.value.percentageBachelors <= 100.0
    ensures r.Ok? ==> 0.0 <= r.value.higherEducationRich <= 100.0
    ensures r.Ok? ==> 0.0 <= r.value.lowerEducationRich <= 100.0
    ensures r.Ok? ==> forall i :: 0 <= i < |rows| ==> r.value.minWorkHours <= rows[i].hoursPerWeek
    ensures r.Ok? ==> 0.0 <= r.value.richPercentage <= 100.0
    ensures r.Ok? ==> forall s :: s in CountryPercentages(rows) ==> s.percentage <= r.value.highestEarningCountryPercentage
    ensures r.Ok? ==> r.value.topOccIndia in Text(Filter(rows, IsIndianHighEarner), Occupation)
  {
    var raceCount := RaceCount(rows);
    var averageAgeMen := AverageAgeMen(rows);
    var percentageBachelors :- PercentageBachelors(rows);
    var higherEducationRich :- HigherEducationRich(rows);
    var lowerEducationRich :- LowerEducationRich(rows);
    // Both education shares succeeded, so the table is not empty and the
    // next three statistics cannot fail.
    var minWorkHours := MinWorkHours(rows).value;
    var richPercentage := RichPercentage(rows).value;
    var highest := HighestEarningCountry(rows).value;
    var topOccIndia :- TopOccIndia(rows);
    Ok(Report(raceCount, averageAgeMen, percentageBachelors, higherEducationRich, lowerEducationRich,
      minWorkHours, richPercentage, highest.country, highest.percentage, topOccIndia))
  }
}
