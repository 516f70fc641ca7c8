/** The filter bar of the practice page: the exam options offered for the
    current level and skill, and the four change handlers as transitions
    of the filter state. A handler receives the chosen option's value, or
    `Undefined` when the select was cleared. */
module PracticeFilters {
  import opened Common
  import opened ExamCache

  const TopikOne: string := "TOPIK Ⅰ"
  const Listening: string := "듣기"
  const AllExams: string := "all"

  /** The four pieces of filter state the page owns. */
  datatype Filters = Filters(level: string, skill: string, examId: string, instructions: seq<string>)

  datatype SelectOption = SelectOption(value: string, caption: string)

  /** The label of one exam: `(id) year number`. */
  function ExamLabel(e: Exam): string {
    "(" + KeyText(e.id) + ") " + e.yearDescription + " " + e.examNumberDescription
  }

  /** `examOptions`: "all" first, then one option per exam, in order. */
  function ExamOptions(exams: seq<Exam>): (r: seq<SelectOption>)
    ensures |r| == |exams| + 1
    ensures r[0].value == AllExams
    ensures forall i :: 0 <= i < |exams| ==> r[i + 1] == SelectOption(KeyText(exams[i].id), ExamLabel(exams[i]))
    // a string id is the option's value itself
    ensures forall i :: 0 <= i < |exams| && exams[i].id.Text? ==> r[i + 1].value == exams[i].id.s
  {
    [SelectOption(AllExams, "-- Tất cả phù hợp --")] + Map(exams, (e: Exam) => SelectOption(KeyText(e.id), ExamLabel(e)))
  }

  /** `handleLevelChange`: a new level resets the exam and the chosen
      instruction types; the first level forces the listening skill. */
  function LevelChange(f: Filters, chosen: Js<string>): (r: Filters)
    ensures !Truthy(chosen) ==> r == f
    ensures Truthy(chosen) ==> r.level == chosen.v && r.examId == AllExams && r.instructions == []
    ensures Truthy(chosen) && chosen.v == TopikOne ==> r.skill == Listening
    ensures Truthy(chosen) && chosen.v != TopikOne ==> r.skill == f.skill
  {
    if !Truthy(chosen) then f
    else Filters(chosen.v, if chosen.v == TopikOne then Listening else f.skill, AllExams, [])
  }

  /** `handleSkillChange`. */
  function SkillChange(f: Filters, chosen: Js<string>): (r: Filters)
    ensures !Truthy(chosen) ==> r == f
    ensures Truthy(chosen) ==> r == Filters(f.level, chosen.v, AllExams, [])
  {
    if !Truthy(chosen) then f else f.(skill := chosen.v, examId := AllExams, instructions := [])
  }

  /** `handleExamChange`: only the exam changes. */
  function ExamChange(f: Filters, chosen: Js<string>): (r: Filters)
    ensures !Truthy(chosen) ==> r == f
    ensures Truthy(chosen) ==> r == f.(examId := chosen.v)
  {
    if !Truthy(chosen) then f else f.(examId := chosen.v)
  }

  /** `handleMultiInstructionChange`: the chosen values in order; a cleared
      select (`null`) gives none. */
  function InstructionsChange(f: Filters, chosen: Option<seq<SelectOption>>): (r: Filters)
    ensures r.level == f.level && r.skill == f.skill && r.examId == f.examId
    ensures chosen.None? ==> r.instructions == []
    ensures chosen.Some? ==> (|r.instructions| == |chosen.value| &&
      forall i :: 0 <= i < |chosen.value| ==> r.instructions[i] == chosen.value[i].value)
  {
    match chosen
    case None => f.(instructions := [])
    case Some(opts) => f.(instructions := Map(opts, (o: SelectOption) => o.value))
  }

  /** The multi-select's displayed value: the options whose value is among
      the chosen instruction types, in option order. */
  function ShownInstructions(options: seq<SelectOption>, instructions: seq<string>): (r: seq<SelectOption>)
    ensures forall o :: o in r <==> o in options && o.value in instructions
  {
    Filter(options, (o: SelectOption) => o.value in instructions)
  }

  /** The displayed selection lists options in their own order, and after
      choosing options the display shows exactly the options sharing a
      value with one chosen. */
  lemma ChosenOptionsAreShown(f: Filters, options: seq<SelectOption>, chosen: seq<SelectOption>)
    ensures IsSubsequence(ShownInstructions(options, InstructionsChange(f, Some(chosen)).instructions), options)
    ensures forall o :: o in options && o in chosen ==>
      o in ShownInstructions(options, InstructionsChange(f, Some(chosen)).instructions)
  {
    var ins := InstructionsChange(f, Some(chosen)).instructions;
    FilterIsSubsequence(options, (o: SelectOption) => o.value in ins);
    forall o | o in options && o in chosen
      ensures o in ShownInstructions(options, ins)
    {
      var i :| 0 <= i < |chosen| && chosen[i] == o;
      assert ins[i] == o.value;
    }
  }

  /** A level or skill choice always leaves the exam on "all" with no
      instruction type chosen, so a stale exam never survives. */
  lemma LevelOrSkillResetsExam(f: Filters, level: string, skill: string)
    requires level != "" && skill != ""
    ensures LevelChange(f, Value(level)).examId == AllExams
    ensures SkillChange(LevelChange(f, Value(level)), Value(skill)) ==
      Filters(level, skill, AllExams, [])
  {
  }
}
