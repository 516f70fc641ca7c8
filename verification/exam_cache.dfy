/** The exam instance of the cache slot, and `getExamData`, which finds one
    exam in whatever array `getAllExams` answered. */
module ExamCache {
  import opened Common
  import opened Decimal
  import opened SlotCache

  /** An exam's `id` as it comes out of the JSON file: a string or a number. */
  datatype ExamKey = Text(s: string) | Number(n: int)

  /** The fields of an exam record the modelled code reads; questions and
      the rest of the record are carried along untouched. */
  datatype Exam = Exam(id: ExamKey, level: string, skill: string, yearDescription: string, examNumberDescription: string)

  type ExamSlot = Slot<Exam>

  /** `id.toString()`. */
  function KeyText(k: ExamKey): string {
    match k
    case Text(s) => s
    case Number(n) => IntToString(n)
  }

  /** `getExamData(examId)`: the first exam whose id, as text, equals
      `examId`; `null` when there is none or when the array could not be
      obtained (a joined load that rejected is caught here). */
  function GetExamData(all: Joined<Exam>, examId: string): (r: Option<Exam>)
    ensures all.Rejected? ==> r.None?
    ensures r.Some? ==> all.Resolved? && r.value in all.data && KeyText(r.value.id) == examId
    ensures r.Some? ==> (exists i :: 0 <= i < |all.data| && all.data[i] == r.value &&
                          forall j :: 0 <= j < i ==> KeyText(all.data[j].id) != examId)
    ensures all.Resolved? && r.None? ==> forall e :: e in all.data ==> KeyText(e.id) != examId
  {
    match all
    case Rejected => None
    case Resolved(xs) =>
      match FirstIndex(xs, (e: Exam) => KeyText(e.id) == examId)
      case None => None
      case Some(i) => Some(xs[i])
  }

  /** An exam with a numeric id, anywhere in the list, is found by the
      decimal text of that id, as `toString` makes them equal: the answer
      has that id text and comes no later in the list. */
  lemma NumericIdFoundByText(xs: seq<Exam>, n: int, i: nat)
    requires i < |xs| && xs[i].id == Number(n)
    ensures var r := GetExamData(Resolved(xs), IntToString(n));
      r.Some? && KeyText(r.value.id) == IntToString(n) &&
      exists k :: 0 <= k <= i && xs[k] == r.value
  {
    assert KeyText(xs[i].id) == IntToString(n);
  }
}
