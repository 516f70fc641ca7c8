/** The server part of the practice page: the exam list it hands to the
    client, with three exam series removed, and the choice between the
    error view and the client view. */
module PracticePage {
  import opened Common
  import opened SlotCache
  import opened ExamCache
  import PracticeFilters

  /** `EXCLUDED_IDS_PREFIX`. */
  const ExcludedPrefixes: seq<string> := ["35-", "36-", "37-"]

  predicate StartsWith(s: string, p: string) {
    |p| <= |s| && s[..|p|] == p
  }

  /** An exam is offered when its id is a string outside the excluded series. */
  predicate Offered(e: Exam) {
    e.id.Text? && forall k :: 0 <= k < |ExcludedPrefixes| ==> !StartsWith(e.id.s, ExcludedPrefixes[k])
  }

  /** `getFilteredExamData()`: the offered exams in cache order; a
      rejected load is caught and gives `[]`. */
  function FilteredExams(source: Joined<Exam>): (r: seq<Exam>)
    ensures source.Rejected? ==> r == []
    ensures forall e :: e in r ==> Offered(e) && e in source.data
    ensures source.Resolved? ==> forall e :: e in source.data && Offered(e) ==> e in r
  {
    match source
    case Rejected => []
    case Resolved(xs) => Filter(xs, Offered)
  }

  /** The kept exams are a subsequence of the cached ones. */
  lemma FilteredKeepsOrder(source: Joined<Exam>)
    requires source.Resolved?
    ensures IsSubsequence(FilteredExams(source), source.data)
  {
    FilterIsSubsequence(source.data, Offered);
  }

  /** Exams of series 35 to 37, and those with numeric ids, never reach the page. */
  lemma ExcludedSeriesNeverShown(source: Joined<Exam>, e: Exam)
    requires e.id.Number? || (e.id.Text? && |e.id.s| >= 3 && e.id.s[..3] in ExcludedPrefixes)
    ensures e !in FilteredExams(source)
  {
    if e.id.Text? {
      var k :| 0 <= k < |ExcludedPrefixes| && ExcludedPrefixes[k] == e.id.s[..3];
      assert StartsWith(e.id.s, ExcludedPrefixes[k]);
    }
  }

  datatype View = ErrorView | ClientView(exams: seq<Exam>)

  /** `PracticeByTypePage()`. */
  function Render(source: Joined<Exam>): (v: View)
    ensures v.ErrorView? <==> FilteredExams(source) == []
    ensures v.ClientView? ==> v.exams == FilteredExams(source) && |v.exams| > 0
  {
    var exams := FilteredExams(source);
    if |exams| == 0 then ErrorView else ClientView(exams)
  }

  /** Every exam the page hands to the filters has a string id, so each
      exam option is valued by that id itself. */
  lemma OfferedOptionsCarryIds(source: Joined<Exam>)
    ensures var exams := FilteredExams(source);
      forall i :: 0 <= i < |exams| ==>
        exams[i].id.Text? && PracticeFilters.ExamOptions(exams)[i + 1].value == exams[i].id.s
  {
    var exams := FilteredExams(source);
    assert forall i :: 0 <= i < |exams| ==> exams[i] in exams;
  }
}
