/**
 * Aggregation: folding each teacher's per-category tier assignments into a
 * per-category breakdown and a point total (computeTeacherTotals), and the
 * total the detail modal recomputes on its own.
 */
module Aggregation {
  import opened Wrappers
  import opened Tiers

  /**
   * A teacher record of the teachers document. `categories` maps a category
   * name to the tier assigned for it; a value of `None` is an explicit null.
   */
  datatype Teacher = Teacher(
    id: string,
    name: string,
    range: Option<string>,
    description: Option<string>,
    categories: Option<map<string, Option<string>>>,
    lessonsMissed: int)

  /** One row of the breakdown: the category, its normalized tier and its points. */
  datatype CategoryScore = CategoryScore(category: string, tier: Option<string>, points: int)

  /** A teacher record spread into a new object, with the breakdown and the total added. */
  datatype AggregatedTeacher = AggregatedTeacher(
    id: string,
    name: string,
    range: Option<string>,
    description: Option<string>,
    categories: Option<map<string, Option<string>>>,
    lessonsMissed: int,
    perCategory: seq<CategoryScore>,
    totalPoints: int)

  /** The teachers document; each field may be missing. */
  datatype TeachersDocument = TeachersDocument(
    pointsByTier: Option<map<string, int>>,
    categories: Option<seq<string>>,
    teachers: Option<seq<Teacher>>)

  /** The teacher record an aggregated teacher was spread from. */
  function Original(a: AggregatedTeacher): Teacher {
    Teacher(a.id, a.name, a.range, a.description, a.categories, a.lessonsMissed)
  }

  /** The points table, empty when the document has none (app.js:33). */
  function PointsTable(data: TeachersDocument): map<string, int> {
    data.pointsByTier.GetOr(map[])
  }

  /** The declared categories, none when the document has none (app.js:34). */
  function CategoryList(data: TeachersDocument): seq<string> {
    data.categories.GetOr([])
  }

  /** The teacher records, none when the document has none (app.js:36). */
  function TeacherList(data: TeachersDocument): seq<Teacher> {
    data.teachers.GetOr([])
  }

  /** The tier assigned to a category, null when the map, the key or the value is missing. */
  function AssignedTier(teacher: Teacher, category: string): (tier: Option<string>)
    ensures teacher.categories.None? ==> tier == None
    ensures teacher.categories.Some? && category !in teacher.categories.value ==> tier == None
    ensures teacher.categories.Some? && category in teacher.categories.value ==>
              tier == teacher.categories.value[category]
  {
    match teacher.categories
    case None => None
    case Some(cat) => if category in cat then cat[category] else None
  }

  /** One breakdown row (app.js:39-41): a row without a tier never scores. */
  function ScoreCategory(pointsByTier: map<string, int>, teacher: Teacher, category: string): (row: CategoryScore)
    ensures row.category == category
    ensures !Truthy(row.tier) ==> row.points == 0
    ensures AssignedTier(teacher, category) == None ==> row.tier == None && row.points == 0
  {
    var tier := AssignedTier(teacher, category);
    CategoryScore(category, NormalizeTier(tier), PointsForTier(pointsByTier, tier))
  }

  /** The breakdown, one row per declared category, in the declared order. */
  function PerCategory(pointsByTier: map<string, int>, categories: seq<string>, teacher: Teacher): (rows: seq<CategoryScore>)
    ensures |rows| == |categories|
    ensures forall i :: 0 <= i < |rows| ==> rows[i].category == categories[i]
    ensures forall i :: 0 <= i < |rows| && !Truthy(rows[i].tier) ==> rows[i].points == 0
    ensures forall i :: 0 <= i < |rows| && AssignedTier(teacher, categories[i]) == None ==>
              rows[i].tier == None && rows[i].points == 0
  {
    seq(|categories|, i requires 0 <= i < |categories| => ScoreCategory(pointsByTier, teacher, categories[i]))
  }

  /**
   * The total of a breakdown (app.js:44): the rows' points added from left
   * to right, starting from 0.
   */
  function SumPoints(scores: seq<CategoryScore>): (total: int)
    ensures (forall i :: 0 <= i < |scores| ==> scores[i].points == 0) ==> total == 0
    ensures (forall i :: 0 <= i < |scores| ==> scores[i].points >= 0) ==> total >= 0
  {
    if scores == [] then 0
    else SumPoints(scores[..|scores| - 1]) + scores[|scores| - 1].points
  }

  /**
   * The total the detail modal shows (app.js:192): the points of the tier the
   * raw record assigns to each declared category, added from left to right.
   */
  function ModalTotal(pointsByTier: map<string, int>, categories: seq<string>, teacher: Teacher): (total: int)
    ensures teacher.categories.None? ==> total == 0
    ensures (forall k :: k in pointsByTier ==> pointsByTier[k] >= 0) ==> total >= 0
  {
    if categories == [] then 0
    else
      ModalTotal(pointsByTier, categories[..|categories| - 1], teacher)
      + PointsForTier(pointsByTier, AssignedTier(teacher, categories[|categories| - 1]))
  }

  /** The sum of the breakdown is the total the modal computes from the raw record. */
  lemma {:induction false} BreakdownSumIsModalTotal(pointsByTier: map<string, int>, categories: seq<string>, teacher: Teacher)
    ensures SumPoints(PerCategory(pointsByTier, categories, teacher)) == ModalTotal(pointsByTier, categories, teacher)
  {
    if categories != [] {
      var n := |categories| - 1;
      assert PerCategory(pointsByTier, categories, teacher)[..n] == PerCategory(pointsByTier, categories[..n], teacher);
      BreakdownSumIsModalTotal(pointsByTier, categories[..n], teacher);
    }
  }

  /** The per-teacher step of computeTeacherTotals. */
  function AggregateTeacher(pointsByTier: map<string, int>, categories: seq<string>, teacher: Teacher): (a: AggregatedTeacher)
    ensures Original(a) == teacher
    ensures |a.perCategory| == |categories|
    ensures forall i :: 0 <= i < |categories| ==>
              && a.perCategory[i].category == categories[i]
              && a.perCategory[i].tier == NormalizeTier(AssignedTier(teacher, categories[i]))
              && a.perCategory[i].points == PointsForTier(pointsByTier, AssignedTier(teacher, categories[i]))
    ensures forall i :: 0 <= i < |categories| && AssignedTier(teacher, categories[i]) == None ==>
              a.perCategory[i].tier == None && a.perCategory[i].points == 0
    ensures a.totalPoints == SumPoints(a.perCategory)
    ensures a.totalPoints == ModalTotal(pointsByTier, categories, teacher)
  {
    var perCategory := PerCategory(pointsByTier, categories, teacher);
    BreakdownSumIsModalTotal(pointsByTier, categories, teacher);
    AggregatedTeacher(teacher.id, teacher.name, teacher.range, teacher.description,
                      teacher.categories, teacher.lessonsMissed,
                      perCategory, SumPoints(perCategory))
  }

  /** computeTeacherTotals: one aggregated teacher per input teacher, in the same order. */
  function ComputeTeacherTotals(data: TeachersDocument): (r: seq<AggregatedTeacher>)
    ensures |r| == |TeacherList(data)|
    ensures forall i :: 0 <= i < |r| ==> Original(r[i]) == TeacherList(data)[i]
    ensures forall i :: 0 <= i < |r| ==>
              r[i].totalPoints == ModalTotal(PointsTable(data), CategoryList(data), TeacherList(data)[i])
    ensures forall i :: 0 <= i < |r| ==> |r[i].perCategory| == |CategoryList(data)|
    ensures forall i, k :: 0 <= i < |r| && 0 <= k < |CategoryList(data)| ==>
              && r[i].perCategory[k].category == CategoryList(data)[k]
              && r[i].perCategory[k].tier == NormalizeTier(AssignedTier(TeacherList(data)[i], CategoryList(data)[k]))
              && r[i].perCategory[k].points ==
                   PointsForTier(PointsTable(data), AssignedTier(TeacherList(data)[i], CategoryList(data)[k]))
    ensures forall i, k ::
              0 <= i < |r| && 0 <= k < |CategoryList(data)| && AssignedTier(TeacherList(data)[i], CategoryList(data)[k]) == None ==>
              r[i].perCategory[k] == CategoryScore(CategoryList(data)[k], None, 0)
    ensures forall i :: 0 <= i < |r| ==> r[i].totalPoints == SumPoints(r[i].perCategory)
  {
    var teachers := TeacherList(data);
    seq(|teachers|, i requires 0 <= i < |teachers| =>
      AggregateTeacher(PointsTable(data), CategoryList(data), teachers[i]))
  }

  /**
   * The rows the modal shows for a teacher (normalizing, then scoring and
   * labelling the normalized tier) agree with the breakdown.
   */
  lemma ModalRowsMatchBreakdown(pointsByTier: map<string, int>, categories: seq<string>, teacher: Teacher, i: nat)
    requires i < |categories|
    ensures var a := AggregateTeacher(pointsByTier, categories, teacher);
            var tier := NormalizeTier(AssignedTier(teacher, categories[i]));
            && tier == a.perCategory[i].tier
            && PointsForTier(pointsByTier, tier) == a.perCategory[i].points
            && TierLabel(tier) == TierLabel(AssignedTier(teacher, categories[i]))
  {
    PointsForNormalizedTier(pointsByTier, AssignedTier(teacher, categories[i]));
    TierLabelOfNormalizedTier(AssignedTier(teacher, categories[i]));
  }

  /** The teacher of the worked example: Math assigned "t1", Science unassigned. */
  function ExampleTeacher(): Teacher {
    Teacher("1", "Amy", None, None, Some(map["Math" := Some("t1")]), 0)
  }

  lemma ExampleRows()
    ensures ScoreCategory(map["T1" := 10, "T2" := 5], ExampleTeacher(), "Math") == CategoryScore("Math", Some("T1"), 10)
    ensures ScoreCategory(map["T1" := 10, "T2" := 5], ExampleTeacher(), "Science") == CategoryScore("Science", None, 0)
  {
    assert AssignedTier(ExampleTeacher(), "Math") == Some("t1");
    assert NormalizeTier(Some("t1")) == Some("T1") by {
      assert "t1" == [] + "t1" + [];
      NormalizeTierOfPadded([], "t1", []);
      assert Upper("t1") == "T1" by {
        assert UpperChar('t') == 'T';
      }
    }
  }

  /** The example: with T1 worth 10, the total is 10 and the rows are (Math, T1, 10), (Science, null, 0). */
  lemma AggregateExample()
    ensures var a := AggregateTeacher(map["T1" := 10, "T2" := 5], ["Math", "Science"], ExampleTeacher());
            && a.totalPoints == 10
            && a.perCategory == [CategoryScore("Math", Some("T1"), 10), CategoryScore("Science", None, 0)]
  {
    var math := CategoryScore("Math", Some("T1"), 10);
    var science := CategoryScore("Science", None, 0);
    var rows := PerCategory(map["T1" := 10, "T2" := 5], ["Math", "Science"], ExampleTeacher());
    assert rows == [math, science] by {
      ExampleRows();
      assert rows[0] == math && rows[1] == science;
    }
    assert SumPoints([math, science]) == 10 by {
      assert [math, science][..1] == [math];
      assert [math][..0] == [];
    }
  }
}
