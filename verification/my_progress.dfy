/** The progress page's list logic: the chart series ordered by date, the
    shortened exam name of the chart tooltip, the "recent history" table
    and when the chart and the "view all" link appear. Dates are
    milliseconds since the epoch. */
module MyProgress {
  import opened Common

  /** One `ScoreProgressionItem`. */
  datatype Session = Session(date: int, examName: string, score: int, totalQuestions: int, percentage: int)

  /** One point of the line chart. */
  datatype Point = Point(date: int, percentage: int, examName: string)

  predicate SortedByDate(xs: seq<Session>) {
    forall i, j :: 0 <= i < j < |xs| ==> xs[i].date <= xs[j].date
  }

  /** Places `x` before the first session that is not earlier, so a
      session goes ahead of later-listed ones with the same date. */
  function Insert(x: Session, sorted: seq<Session>): (r: seq<Session>)
    requires SortedByDate(sorted)
    ensures SortedByDate(r)
    ensures multiset(r) == multiset(sorted) + multiset{x}
    ensures |r| == |sorted| + 1
    ensures r[0] == x || (|sorted| > 0 && r[0] == sorted[0])
    decreases |sorted|
  {
    if |sorted| == 0 || x.date <= sorted[0].date then [x] + sorted
    else
      var rest := Insert(x, sorted[1..]);
      assert sorted == [sorted[0]] + sorted[1..];
      assert sorted[0].date <= rest[0].date;
      [sorted[0]] + rest
  }

  /** `[...progression].sort((a, b) => date(a) - date(b))`: a sorted copy. */
  function SortByDate(xs: seq<Session>): (r: seq<Session>)
    ensures SortedByDate(r)
    ensures multiset(r) == multiset(xs)
    ensures |r| == |xs|
    decreases |xs|
  {
    if |xs| == 0 then []
    else
      assert xs == [xs[0]] + xs[1..];
      Insert(xs[0], SortByDate(xs[1..]))
  }

  /** `chartData`: nothing without sessions; otherwise one point per
      session in date order. The source list itself is not reordered. */
  function ChartData(progression: Option<seq<Session>>): (r: seq<Point>)
    ensures progression.None? || progression.value == [] ==> r == []
    ensures progression.Some? ==> |r| == |progression.value|
    ensures forall i, j :: 0 <= i < j < |r| ==> r[i].date <= r[j].date
    ensures progression.Some? ==> forall i :: 0 <= i < |r| ==>
      exists k :: 0 <= k < |progression.value| && r[i] == PointOf(progression.value[k])
    // exactly one point per session: the points are those of the sessions, reordered
    ensures progression.Some? ==> multiset(r) == multiset(Map(progression.value, PointOf))
  {
    match progression
    case None => []
    case Some(ps) =>
      if |ps| == 0 then []
      else
        var sorted := SortByDate(ps);
        assert forall i :: 0 <= i < |sorted| ==> sorted[i] in multiset(ps);
        SortedPoints(ps);
        Map(sorted, PointOf)
  }

  lemma PointsCons(x: Session, xs: seq<Session>)
    ensures Map([x] + xs, PointOf) == [PointOf(x)] + Map(xs, PointOf)
  {
    var l := Map([x] + xs, PointOf);
    var r := [PointOf(x)] + Map(xs, PointOf);
    assert |l| == |r|;
    forall i | 0 <= i < |l| ensures l[i] == r[i] {
      if i > 0 {
        assert ([x] + xs)[i] == xs[i - 1];
      }
    }
  }

  /** Inserting a session adds its point to the points. */
  lemma {:induction false} InsertedPoints(x: Session, sorted: seq<Session>)
    requires SortedByDate(sorted)
    ensures multiset(Map(Insert(x, sorted), PointOf)) == multiset(Map(sorted, PointOf)) + multiset{PointOf(x)}
    decreases |sorted|
  {
    if |sorted| == 0 || x.date <= sorted[0].date {
      PointsCons(x, sorted);
    } else {
      var rest := Insert(x, sorted[1..]);
      InsertedPoints(x, sorted[1..]);
      PointsCons(sorted[0], rest);
      PointsCons(sorted[0], sorted[1..]);
      assert sorted == [sorted[0]] + sorted[1..];
    }
  }

  /** Sorting by date reorders the points and neither adds nor drops one. */
  lemma {:induction false} SortedPoints(xs: seq<Session>)
    ensures multiset(Map(SortByDate(xs), PointOf)) == multiset(Map(xs, PointOf))
    decreases |xs|
  {
    if |xs| > 0 {
      SortedPoints(xs[1..]);
      InsertedPoints(xs[0], SortByDate(xs[1..]));
      PointsCons(xs[0], xs[1..]);
      assert xs == [xs[0]] + xs[1..];
    }
  }

  function PointOf(s: Session): Point {
    Point(s.date, s.percentage, s.examName)
  }

  /** The tooltip's exam name: 32 characters and an ellipsis when longer
      than 35, else as is. */
  function TooltipName(name: string): (r: string)
    ensures |r| <= 35
    ensures |name| <= 35 ==> r == name
    ensures |name| > 35 ==> |r| == 35 && r[..32] == name[..32] && r[32..] == "..."
  {
    if |name| > 35 then name[..32] + "..." else name
  }

  /** `[...progression].reverse().slice(0, 10)`: the ten latest-listed
      sessions, last one first. */
  function RecentHistory(ps: seq<Session>): (r: seq<Session>)
    ensures |r| == Min(10, |ps|)
    ensures forall i :: 0 <= i < |r| ==> r[i] == ps[|ps| - 1 - i]
  {
    seq(Min(10, |ps|), i requires 0 <= i < Min(10, |ps|) => ps[|ps| - 1 - i])
  }

  /** Every session shows in the table when there are at most ten, and
      the "view all" link is there exactly when some are left out. */
  lemma HistoryShowsAllOrLinks(ps: seq<Session>)
    ensures |RecentHistory(ps)| == |ps| <==> !ViewAllShown(ps)
    ensures multiset(RecentHistory(ps)) <= multiset(ps)
  {
    var n := Min(10, |ps|);
    assert RecentHistory(ps) == seq(n, i requires 0 <= i < n => ps[|ps| - 1 - i]);
    SuffixReversed(ps, n);
    assert ps == ps[..|ps| - n] + ps[|ps| - n..];
  }

  /** The last `n` sessions reversed hold the same sessions as that suffix. */
  lemma {:induction false} SuffixReversed(ps: seq<Session>, n: nat)
    requires n <= |ps|
    ensures multiset(seq(n, i requires 0 <= i < n => ps[|ps| - 1 - i])) == multiset(ps[|ps| - n..])
    decreases n
  {
    if n > 0 {
      var r := seq(n, i requires 0 <= i < n => ps[|ps| - 1 - i]);
      var shorter := seq(n - 1, i requires 0 <= i < n - 1 => ps[|ps| - 1 - i]);
      assert r == shorter + [ps[|ps| - n]];
      SuffixReversed(ps, n - 1);
      assert ps[|ps| - n..] == [ps[|ps| - n]] + ps[|ps| - n + 1..];
    }
  }

  /** The "view all" link. */
  predicate ViewAllShown(ps: seq<Session>) {
    |ps| > 10
  }

  /** What the chart area shows. */
  datatype ChartArea = LineChart(points: seq<Point>) | NeedTwoSessions | NotEnoughData

  /** The chart needs two sessions; with fewer the page asks for two more
      attempts, and without a session list it shows the generic message. */
  function ChartAreaOf(progression: Option<seq<Session>>): (a: ChartArea)
    ensures a.LineChart? <==> progression.Some? && |progression.value| > 1
    ensures a.NeedTwoSessions? <==> progression.Some? && |progression.value| <= 1
    ensures a.LineChart? ==> a.points == ChartData(progression) && |a.points| > 1
  {
    match progression
    case None => NotEnoughData
    case Some(ps) =>
      var points := ChartData(progression);
      if |ps| > 1 && |points| > 0 then LineChart(points) else NeedTwoSessions
  }
}
