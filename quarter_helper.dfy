/** Helpers for quarter strings of the form "2024q1": the Japanese season name, the name of a
    playlist merged from several quarters, parsing, and the comparison used for sorting. */
module QuarterHelper {
  import opened Wrappers
  import opened Strings

  /** The entry of the season table for the text after the first 'q', or 不明 when it is not
      one of the four keys (or when there is no 'q' at all). */
  function SeasonName(q: Option<string>): (r: string)
    ensures r == "不明" <==> !(q == Some("1") || q == Some("2") || q == Some("3") || q == Some("4"))
  {
    match q
    case Some("1") => "冬"
    case Some("2") => "春"
    case Some("3") => "夏"
    case Some("4") => "秋"
    case _ => "不明"
  }

  /** `const [year, q] = quarter.split('q')`: the first piece, and the second when there is one. */
  function YearPart(quarter: string): string { Split(quarter, 'q')[0] }

  function QuarterPart(quarter: string): Option<string> {
    var parts := Split(quarter, 'q');
    if |parts| >= 2 then Some(parts[1]) else None
  }

  /** The two pieces of a quarter string made of a year and a quarter text. */
  lemma {:induction false} SplitQuarter(year: string, qs: string)
    requires 'q' !in year && 'q' !in qs
    ensures Split(year + "q" + qs, 'q') == [year, qs]
    ensures YearPart(year + "q" + qs) == year && QuarterPart(year + "q" + qs) == Some(qs)
  {
    assert Join([year, qs], 'q') == year + "q" + qs by {
      assert Join([qs], 'q') == qs;
    }
    SplitJoin([year, qs], 'q');
  }

  /** `quarterToJapaneseName`. */
  function QuarterToJapaneseName(quarter: string): (r: string)
    ensures 'q' !in quarter ==> r == quarter + "年不明アニメ楽曲"
  {
    YearPart(quarter) + "年" + SeasonName(QuarterPart(quarter)) + "アニメ楽曲"
  }

  /** For "YYYYqN" the name is "YYYY年<season>アニメ楽曲", with 冬, 春, 夏, 秋 for N = 1 to 4 and
      不明 for any other N. */
  lemma QuarterNameOf(year: string, qs: string)
    requires 'q' !in year && 'q' !in qs
    ensures QuarterToJapaneseName(year + "q" + qs) == year + "年" + SeasonName(Some(qs)) + "アニメ楽曲"
    ensures qs == "1" ==> QuarterToJapaneseName(year + "q" + qs) == year + "年冬アニメ楽曲"
    ensures qs == "4" ==> QuarterToJapaneseName(year + "q" + qs) == year + "年秋アニメ楽曲"
    ensures !(qs in ["1", "2", "3", "4"]) ==> QuarterToJapaneseName(year + "q" + qs) == year + "年不明アニメ楽曲"
  {
    SplitQuarter(year, qs);
  }

  /** `generateMergedPlaylistName`: the default title for no quarter, the season name for one,
      and otherwise the least and greatest quarter in code-unit order, uppercased. The input is
      a value, so sorting a copy leaves it as it was. */
  function GenerateMergedPlaylistName(quarters: seq<string>): (r: string)
    ensures |quarters| == 0 ==> r == "アニメ楽曲コレクション"
    ensures |quarters| == 1 ==> r == QuarterToJapaneseName(quarters[0])
  {
    if |quarters| == 0 then "アニメ楽曲コレクション"
    else if |quarters| == 1 then QuarterToJapaneseName(quarters[0])
    else
      assert |Sort(quarters)| == |quarters| by { assert |multiset(Sort(quarters))| == |multiset(quarters)|; }
      RangeName(Sort(quarters))
  }

  /** The title of a playlist merged from several seasons, from the sorted seasons: the default
      title followed by the first and the last season, uppercased. */
  function RangeName(sorted: seq<string>): string
    requires |sorted| > 0
  {
    "アニメ楽曲コレクション " + ToUpper(sorted[0]) + "-" + ToUpper(sorted[|sorted| - 1])
  }

  /** For two or more quarters the name is built from the least and the greatest input quarter
      in code-unit order, whatever order they come in. */
  lemma MergedNameBounds(quarters: seq<string>, lo: string, hi: string)
    requires |quarters| >= 2 && lo in quarters && hi in quarters
    requires forall x :: x in quarters ==> LexLe(lo, x) && LexLe(x, hi)
    ensures GenerateMergedPlaylistName(quarters) == "アニメ楽曲コレクション " + ToUpper(lo) + "-" + ToUpper(hi)
  {
    SortBounds(quarters);
    var sorted := Sort(quarters);
    LexLeAntisymmetric(lo, sorted[0]);
    LexLeAntisymmetric(hi, sorted[|sorted| - 1]);
    assert GenerateMergedPlaylistName(quarters) == RangeName(sorted);
  }

  /** The merged name does not depend on the order in which the quarters were selected. */
  lemma MergedNameOrderIndependent(a: seq<string>, b: seq<string>)
    requires multiset(a) == multiset(b)
    ensures GenerateMergedPlaylistName(a) == GenerateMergedPlaylistName(b)
  {
    assert |a| == |b| by { assert |multiset(a)| == |multiset(b)|; }
    if |a| == 1 {
      Seqs.SingletonPermutation(a, b);
    } else if |a| >= 2 {
      SortPermutationInvariant(a, b);
    }
  }

  // ---------------------------------------------------------------------------------------------
  // Parsing and comparison

  /** `{ year, q }` as `parseQuarter` returns it; `None` stands for `NaN`. */
  datatype ParsedQuarter = ParsedQuarter(year: Option<int>, q: Option<int>)

  /** `parseQuarter`: `parseInt` of the two pieces; a missing second piece parses as `NaN`. */
  function ParseQuarter(quarter: string): (r: ParsedQuarter)
    ensures 'q' !in quarter ==> r.q.None?
  {
    var q := QuarterPart(quarter);
    ParsedQuarter(ParseInt(YearPart(quarter)), if q.Some? then ParseInt(q.value) else None)
  }

  /** The quarter string for a year and a quarter number. */
  function QuarterString(year: nat, q: nat): string {
    NatToString(year) + "q" + NatToString(q)
  }

  /** Parsing a well-formed quarter string gives back its year and quarter number. */
  lemma ParseQuarterString(year: nat, q: nat)
    ensures ParseQuarter(QuarterString(year, q)) == ParsedQuarter(Some(year), Some(q))
  {
    assert forall i :: 0 <= i < |NatToString(year)| ==> IsDigit(NatToString(year)[i]);
    assert forall i :: 0 <= i < |NatToString(q)| ==> IsDigit(NatToString(q)[i]);
    SplitQuarter(NatToString(year), NatToString(q));
    ParseIntNatToString(year);
    ParseIntNatToString(q);
  }

  /** The comparison of two parsed quarters. `None` is `NaN`: `NaN !== x` holds for every `x`,
      so an unparsable year makes the result `NaN`, and so does an unparsable quarter number when
      the years agree. */
  function CompareParsed(pa: ParsedQuarter, pb: ParsedQuarter): (r: Option<int>)
    ensures r.Some? ==> pa.year.Some? && pb.year.Some?
    ensures r.Some? && pa.year != pb.year ==> r.value == pa.year.value - pb.year.value
    ensures r.Some? && pa.year == pb.year ==> pa.q.Some? && pb.q.Some? && r.value == pa.q.value - pb.q.value
  {
    if pa.year.None? || pb.year.None? || pa.year != pb.year then
      if pa.year.Some? && pb.year.Some? then Some(pa.year.value - pb.year.value) else None
    else if pa.q.Some? && pb.q.Some? then Some(pa.q.value - pb.q.value)
    else None
  }

  /** `compareQuarters`: the difference of the years when they differ, else the difference of
      the quarter numbers. */
  function CompareQuarters(a: string, b: string): Option<int>
  {
    CompareParsed(ParseQuarter(a), ParseQuarter(b))
  }

  /** The comparison is zero exactly when both parse completely and year and quarter agree. */
  lemma CompareZeroIff(pa: ParsedQuarter, pb: ParsedQuarter)
    ensures CompareParsed(pa, pb) == Some(0) <==> pa == pb && pa.year.Some? && pa.q.Some?
  {
  }

  /** Swapping the arguments negates the result. */
  lemma CompareAntisymmetric(pa: ParsedQuarter, pb: ParsedQuarter)
    ensures CompareParsed(pb, pa) == if CompareParsed(pa, pb).Some? then Some(-CompareParsed(pa, pb).value) else None
  {
  }

  /** The order is transitive. */
  lemma CompareTransitive(pa: ParsedQuarter, pb: ParsedQuarter, pc: ParsedQuarter)
    requires CompareParsed(pa, pb).Some? && CompareParsed(pa, pb).value <= 0
    requires CompareParsed(pb, pc).Some? && CompareParsed(pb, pc).value <= 0
    ensures CompareParsed(pa, pc).Some? && CompareParsed(pa, pc).value <= 0
    ensures CompareParsed(pa, pb).value < 0 || CompareParsed(pb, pc).value < 0 ==> CompareParsed(pa, pc).value < 0
  {
  }

  /** On well-formed quarter strings the comparison orders by year, then by quarter number. */
  lemma CompareQuarterStrings(y1: nat, q1: nat, y2: nat, q2: nat)
    ensures CompareQuarters(QuarterString(y1, q1), QuarterString(y2, q2)) ==
      Some(if y1 != y2 then y1 - y2 else q1 - q2)
  {
    var a, b := QuarterString(y1, q1), QuarterString(y2, q2);
    ParseQuarterString(y1, q1);
    ParseQuarterString(y2, q2);
    CompareOfParsed(a, b, ParsedQuarter(Some(y1), Some(q1)), ParsedQuarter(Some(y2), Some(q2)));
    CompareParsedNumbers(y1, q1, y2, q2);
  }

  lemma CompareParsedNumbers(y1: nat, q1: nat, y2: nat, q2: nat)
    ensures CompareParsed(ParsedQuarter(Some(y1), Some(q1)), ParsedQuarter(Some(y2), Some(q2))) ==
      Some(if y1 != y2 then y1 - y2 else q1 - q2)
  {
  }

  lemma CompareOfParsed(a: string, b: string, pa: ParsedQuarter, pb: ParsedQuarter)
    requires ParseQuarter(a) == pa && ParseQuarter(b) == pb
    ensures CompareQuarters(a, b) == CompareParsed(pa, pb)
  {
  }
}
