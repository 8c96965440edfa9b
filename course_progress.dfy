/**
  Sequential unlock in `learnCourse` (`lms-api/controllers/learnerController.js`):
  the ids of completed materials are collected from the learner's progress rows,
  then one pass over the ordered material list sets each material's `completed`
  and `unlocked` flags in place, and the course counts as finished when the list is
  non-empty and every material is completed.
*/
module CourseProgress {

  /** A `material_progress` row of one enrollment. */
  datatype ProgressRow = ProgressRow(materialId: int, completed: bool)

  /** A `course_materials` row, with the two flags the page is given. */
  datatype Material = Material(id: int, title: string, completed: bool, unlocked: bool)

  /** Some progress row marks material `id` completed. */
  predicate HasCompletedRow(rows: seq<ProgressRow>, id: int) {
    exists j :: 0 <= j < |rows| && rows[j].completed && rows[j].materialId == id
  }

  /** The material ids of the completed progress rows, in row order. */
  function CompletedIds(rows: seq<ProgressRow>): (ids: seq<int>)
    ensures |ids| <= |rows|
    ensures forall id :: id in ids <==> HasCompletedRow(rows, id)
  {
    if rows == [] then []
    else
      var rest := CompletedIds(rows[1..]);
      assert forall id :: HasCompletedRow(rows, id) <==>
        (rows[0].completed && rows[0].materialId == id) || HasCompletedRow(rows[1..], id) by {
        forall id
          ensures HasCompletedRow(rows, id) ==>
            (rows[0].completed && rows[0].materialId == id) || HasCompletedRow(rows[1..], id)
        {
          if HasCompletedRow(rows, id) {
            var j :| 0 <= j < |rows| && rows[j].completed && rows[j].materialId == id;
            if j > 0 {
              assert rows[1..][j - 1] == rows[j];
            }
          }
        }
        forall id | HasCompletedRow(rows[1..], id)
          ensures HasCompletedRow(rows, id)
        {
          var j :| 0 <= j < |rows[1..]| && rows[1..][j].completed && rows[1..][j].materialId == id;
          assert rows[j + 1] == rows[1..][j];
        }
      }
      if rows[0].completed then [rows[0].materialId] + rest else rest
  }

  /** Material `k` with its flags set from the completed ids: completed when its own
      id is there, unlocked when it is the first or its predecessor's id is there. */
  function Annotated(ms: seq<Material>, done: seq<int>, k: nat): Material
    requires k < |ms|
  {
    ms[k].(completed := ms[k].id in done, unlocked := k == 0 || ms[k - 1].id in done)
  }

  /** The material list after the loop of `learnCourse`. */
  function Decorated(ms: seq<Material>, done: seq<int>): (r: seq<Material>)
    ensures |r| == |ms|
    ensures forall k :: 0 <= k < |r| ==> r[k].id == ms[k].id && r[k].title == ms[k].title
    ensures forall k :: 0 <= k < |r| ==> (r[k].completed <==> ms[k].id in done)
    ensures |r| > 0 ==> r[0].unlocked
    ensures forall k :: 0 < k < |r| ==> (r[k].unlocked <==> r[k - 1].completed)
  {
    seq(|ms|, k requires 0 <= k < |ms| => Annotated(ms, done, k))
  }

  /** The list is non-empty and every material in it is completed. */
  predicate AllCompleted(ms: seq<Material>) {
    |ms| > 0 && forall k :: 0 <= k < |ms| ==> ms[k].completed
  }

  /** The loop of `learnCourse`, lines 333-348: it rewrites each element in place and
      reads the predecessor's id after the predecessor was itself rewritten. */
  method Unlock(materials: array<Material>, done: seq<int>)
    modifies materials
    ensures materials[..] == Decorated(old(materials[..]), done)
  {
    ghost var before := materials[..];
    for i := 0 to materials.Length
      invariant forall k :: 0 <= k < i ==> materials[k] == Annotated(before, done, k)
      invariant forall k :: i <= k < materials.Length ==> materials[k] == before[k]
    {
      var material := materials[i];
      var isCompleted := material.id in done;
      var isUnlocked := false;
      if i == 0 {
        isUnlocked := true;
      } else {
        var previous := materials[i - 1];
        isUnlocked := previous.id in done;
      }
      materials[i] := material.(completed := isCompleted, unlocked := isUnlocked);
    }
  }

  /** The decision part of `learnCourse`: flag the materials from the progress rows and
      report whether the course is finished. */
  method LearnCourse(materials: array<Material>, progress: seq<ProgressRow>) returns (allCompleted: bool)
    modifies materials
    ensures materials[..] == Decorated(old(materials[..]), CompletedIds(progress))
    ensures allCompleted <==>
      materials.Length > 0 && forall k :: 0 <= k < materials.Length ==> HasCompletedRow(progress, materials[k].id)
  {
    var completedMaterialIds := CompletedIds(progress);
    Unlock(materials, completedMaterialIds);
    allCompleted := AllCompleted(materials[..]);
  }

  /** A finished course has every material unlocked. */
  lemma FinishedUnlocksAll(ms: seq<Material>, done: seq<int>)
    requires AllCompleted(Decorated(ms, done))
    ensures forall k :: 0 <= k < |ms| ==> Decorated(ms, done)[k].unlocked
  {
  }

  /** A locked material has an unfinished predecessor, so the course is not finished. */
  lemma LockedMeansUnfinished(ms: seq<Material>, done: seq<int>, k: nat)
    requires k < |ms| && !Decorated(ms, done)[k].unlocked
    ensures 0 < k && ms[k - 1].id !in done
    ensures !AllCompleted(Decorated(ms, done))
  {
  }
}
