/** The per-instruction statistics of the practice page: pie slices with
    their colours, the tooltip share, and the table's correct-rate cell
    with its colour class. Percentages are computed exactly and rounded
    half up, as `Math.round` does on the exact quotient. */
module InstructionStats {
  import opened Common
  import opened Decimal

  /** One instruction type's tally. */
  datatype Stat = Stat(total: nat, correct: nat)

  /** `Math.round(100 * num / den)` for `den > 0`. */
  function RoundPercent(num: nat, den: nat): (p: nat)
    requires den > 0
  {
    (200 * num + den) / (2 * den)
  }

  /** The rounded percent is the nearest integer to `100 * num / den`,
      halves going up. */
  lemma RoundPercentIsNearest(num: nat, den: nat)
    requires den > 0
    ensures 2 * RoundPercent(num, den) * den - den <= 200 * num < 2 * RoundPercent(num, den) * den + den
  {
    var p := RoundPercent(num, den);
    var q := 200 * num + den;
    assert q == p * (2 * den) + q % (2 * den);
  }

  /** A share of a whole is a percent between 0 and 100. */
  lemma RoundPercentBounded(num: nat, den: nat)
    requires den > 0 && num <= den
    ensures RoundPercent(num, den) <= 100
  {
    RoundPercentIsNearest(num, den);
    var p := RoundPercent(num, den);
    assert (2 * p - 201) * den <= 0;
    MulNonPositive(2 * p - 201, den);
  }

  lemma MulNonPositive(a: int, b: int)
    requires b > 0 && a * b <= 0
    ensures a <= 0
  {
  }

  /** A row's percent: 0 when nothing was answered. */
  function RowPercent(s: Stat): (p: nat)
    ensures s.total == 0 ==> p == 0
    ensures s.total > 0 ==> 2 * p * s.total - s.total <= 200 * s.correct < 2 * p * s.total + s.total
    ensures s.correct <= s.total ==> p <= 100
  {
    if s.total > 0 then
      RoundPercentIsNearest(s.correct, s.total);
      if s.correct <= s.total then RoundPercentBounded(s.correct, s.total); RoundPercent(s.correct, s.total)
      else RoundPercent(s.correct, s.total)
    else 0
  }

  datatype Tone = Green | Yellow | Red

  /** The rate cell's colour class. */
  function ToneOf(percent: int): (t: Tone)
    ensures t == Green <==> percent >= 70
    ensures t == Yellow <==> 40 <= percent < 70
    ensures t == Red <==> percent < 40
  {
    if percent >= 70 then Green else if percent >= 40 then Yellow else Red
  }

  /** The rate cell's text: `-` for an empty row, else the percent. */
  function RateCell(s: Stat): (t: string)
    ensures s.total == 0 <==> t == "-"
    ensures s.total > 0 ==> t == IntToString(RowPercent(s)) + "%"
  {
    if s.total > 0 then IntToString(RowPercent(s)) + "%" else "-"
  }

  /** `COLORS`: thirty fills, several repeated. */
  const Colors: seq<string> := [
    "#3b82f6", "#10b981", "#f59e42", "#ef4444", "#a78bfa", "#f472b6", "#facc15", "#38bdf8",
    "#34d399", "#fb7185", "#6366f1", "#fbbf24", "#eab308", "#14b8a6", "#8b5cf6", "#f87171",
    "#f472b6", "#fcd34d", "#60a5fa", "#4ade80", "#fbbf24", "#f87171", "#a3e635", "#f472b6",
    "#f59e42", "#fbbf24", "#f472b6", "#f87171", "#a78bfa", "#f59e42"]

  datatype Slice = Slice(name: string, value: nat, fill: string)

  /** Every listed instruction has a tally. */
  predicate Tallied(stats: map<string, Stat>, instructions: seq<string>) {
    forall i :: 0 <= i < |instructions| ==> instructions[i] in stats
  }

  /** `pieData`: one slice per listed instruction, in order, coloured by
      position modulo the palette, so slices thirty apart share a colour. */
  function PieData(stats: map<string, Stat>, instructions: seq<string>): (r: seq<Slice>)
    requires Tallied(stats, instructions)
    ensures |r| == |instructions|
    ensures forall i :: 0 <= i < |r| ==>
      r[i].name == instructions[i] && r[i].value == stats[instructions[i]].total && r[i].fill == Colors[i % |Colors|]
  {
    seq(|instructions|, i requires 0 <= i < |instructions| =>
      Slice(instructions[i], stats[instructions[i]].total, Colors[i % |Colors|]))
  }

  /** The sum of the slice values. */
  function Sum(slices: seq<Slice>): nat
    decreases |slices|
  {
    if |slices| == 0 then 0 else slices[0].value + Sum(slices[1..])
  }

  /** No slice exceeds the sum. */
  lemma {:induction false} SliceAtMostSum(slices: seq<Slice>, i: nat)
    requires i < |slices|
    ensures slices[i].value <= Sum(slices)
    decreases |slices|
  {
    if i > 0 {
      SliceAtMostSum(slices[1..], i - 1);
    }
  }

  /** The tooltip's share of slice `i`: 0 when every total is 0. */
  function TooltipShare(slices: seq<Slice>, i: nat): (p: nat)
    requires i < |slices|
    ensures Sum(slices) == 0 ==> p == 0
    ensures p <= 100
    ensures Sum(slices) > 0 ==>
      2 * p * Sum(slices) - Sum(slices) <= 200 * slices[i].value < 2 * p * Sum(slices) + Sum(slices)
  {
    var total := Sum(slices);
    if total > 0 then
      SliceAtMostSum(slices, i);
      RoundPercentIsNearest(slices[i].value, total);
      RoundPercentBounded(slices[i].value, total);
      RoundPercent(slices[i].value, total)
    else 0
  }
}
