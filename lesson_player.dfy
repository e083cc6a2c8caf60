/** The lesson player: the list of completed lesson ids, the index of the
    lesson on screen, and the progress shown from them. */
module LessonPlayer {
  import opened Wrappers
  import opened Seqs
  import opened Rounding
  import opened UiTypes
  import opened Catalog

  /** The ids the page starts with as already completed. */
  const InitialCompleted: seq<string> := ["l1", "l2"]

  predicate Distinct(s: seq<string>)
  {
    forall i, j :: 0 <= i < j < |s| ==> s[i] != s[j]
  }

  /** The list after `markComplete` for `id`: the id is added once, at the
      end, only when absent. */
  function WithCompleted(completed: seq<string>, id: string): (r: seq<string>)
    ensures id in r
    ensures forall x :: x in r <==> x in completed || x == id
    ensures |r| == if id in completed then |completed| else |completed| + 1
    ensures completed == r[..|completed|]
    ensures Distinct(completed) ==> Distinct(r)
  {
    if id in completed then completed else completed + [id]
  }

  /** Marking the same lesson twice changes nothing more. */
  lemma WithCompletedIdempotent(completed: seq<string>, id: string)
    ensures WithCompleted(WithCompleted(completed, id), id) == WithCompleted(completed, id)
  {
  }

  /** `goToNext`'s index: one further unless at the last lesson. */
  function NextIndex(index: int, count: nat): (r: int)
    ensures 0 <= index < count ==> 0 <= r < count
    ensures index < count - 1 ==> r == index + 1
    ensures index >= count - 1 ==> r == index
  {
    if index < count - 1 then index + 1 else index
  }

  /** `goToPrevious`'s index: one back unless at the first lesson. */
  function PreviousIndex(index: int): (r: int)
    ensures index > 0 ==> r == index - 1
    ensures index <= 0 ==> r == index
    ensures 0 <= index ==> 0 <= r <= index
  {
    if index > 0 then index - 1 else index
  }

  /** Going back after going forward from below the last lesson returns to
      the same lesson. */
  lemma PreviousAfterNext(index: int, count: nat)
    requires 0 <= index < count - 1
    ensures PreviousIndex(NextIndex(index, count)) == index
  {
  }

  /** `Math.round((completed.length / lessons.length) * 100)`. */
  function ProgressPercent(completedCount: nat, lessonCount: nat): (r: int)
    requires lessonCount > 0
    ensures r >= 0
    ensures completedCount <= lessonCount ==> r <= 100
    ensures completedCount == lessonCount ==> r == 100
    ensures completedCount == 0 ==> r == 0
  {
    var x := completedCount as real / lessonCount as real * 100.0;
    FractionBounds(completedCount, lessonCount);
    RoundHalfUpOfInt(100);
    RoundHalfUpOfInt(0);
    RoundHalfUp(x)
  }

  lemma FractionBounds(c: nat, n: nat)
    requires n > 0
    ensures 0.0 <= c as real / n as real * 100.0
    ensures c <= n ==> c as real / n as real * 100.0 <= 100.0
    ensures c == n ==> c as real / n as real * 100.0 == 100.0
    ensures c == 0 ==> c as real / n as real * 100.0 == 0.0
  {
    var q := c as real / n as real;
    assert q * n as real == c as real;
    if c == n {
      assert q == 1.0;
    }
  }

  /** Rounding goes up at a half: one lesson of eight completed shows 13%. */
  lemma ProgressRoundsHalfUp()
    ensures ProgressPercent(1, 8) == 13
  {
    assert 1 as real / 8 as real * 100.0 == 12.5;
  }

  /** The count is of ids, not of this course's lessons: with the initial
      list and a course of one lesson the bar shows 200%. */
  lemma ProgressCountsForeignIds()
    ensures ProgressPercent(|InitialCompleted|, 1) == 200
  {
    assert |InitialCompleted| as real / 1 as real * 100.0 == 200.0;
  }

  /** When the completed ids are distinct ids of the course's lessons the
      progress is between 0 and 100. */
  lemma ProgressBounded(completed: seq<string>, lessons: seq<UiLesson>)
    requires |lessons| > 0 && Distinct(completed)
    requires forall x :: x in completed ==> exists l :: l in lessons && l.id == x
    ensures 0 <= ProgressPercent(|completed|, |lessons|) <= 100
  {
    DistinctIdsFit(completed, lessons);
  }

  /** Distinct ids drawn from the lessons are no more than the lessons. */
  lemma DistinctIdsFit(completed: seq<string>, lessons: seq<UiLesson>)
    requires Distinct(completed)
    requires forall x :: x in completed ==> exists l :: l in lessons && l.id == x
    ensures |completed| <= |lessons|
  {
    var ids := set l | l in lessons :: l.id;
    var cs := set x | x in completed;
    assert cs <= ids;
    DistinctCard(completed);
    ImageCard(lessons);
    SubsetCard(cs, ids);
  }

  lemma {:induction false} SubsetCard(a: set<string>, b: set<string>)
    requires a <= b
    ensures |a| <= |b|
    decreases |a|
  {
    if a != {} {
      var x :| x in a;
      SubsetCard(a - {x}, b - {x});
    }
  }

  lemma {:induction false} DistinctCard(s: seq<string>)
    requires Distinct(s)
    ensures |set x | x in s| == |s|
  {
    if s != [] {
      var t := s[1..];
      DistinctCard(t);
      assert (set x | x in s) == {s[0]} + (set x | x in t);
      assert s[0] !in t;
    }
  }

  lemma {:induction false} ImageCard(ls: seq<UiLesson>)
    ensures |set l | l in ls :: l.id| <= |ls|
  {
    if ls != [] {
      ImageCard(ls[1..]);
      assert (set l | l in ls :: l.id) == {ls[0].id} + (set l | l in ls[1..] :: l.id);
    }
  }

  /** The first index of the lesson with id `lessonId`, if any. */
  function IndexOfLesson(lessons: seq<UiLesson>, lessonId: string): (r: Option<nat>)
    ensures r.None? <==> forall i :: 0 <= i < |lessons| ==> lessons[i].id != lessonId
    ensures r.Some? ==> r.value < |lessons| && lessons[r.value].id == lessonId
    ensures r.Some? ==> forall i :: 0 <= i < r.value ==> lessons[i].id != lessonId
  {
    FirstIndex(lessons, (l: UiLesson) => l.id == lessonId)
  }

  /** Where the navigation effect sends the player: the position of the
      lesson named by the navigation state, when the state holds a non-empty
      id found among a non-empty list of lessons. */
  function PinnedIndex(lessons: seq<UiLesson>, nav: Option<string>): (r: Option<nat>)
    ensures r.Some? ==> r.value < |lessons| && nav.Some? && lessons[r.value].id == nav.value
    ensures r.None? <==> nav.None? || nav.value == "" || forall i :: 0 <= i < |lessons| ==> lessons[i].id != nav.value
  {
    if nav.Some? && nav.value != "" && |lessons| > 0 then IndexOfLesson(lessons, nav.value) else None
  }

  /** The index once the effect has run on index `i`. */
  function AfterEffect(lessons: seq<UiLesson>, nav: Option<string>, i: int): int
  {
    match PinnedIndex(lessons, nav)
    case Some(p) => p
    case None => i
  }

  /** A press of the player's Next or Previous button. */
  datatype Press = NextPress | PreviousPress

  function Pressed(i: int, count: nat, b: Press): int
  {
    if b.NextPress? then NextIndex(i, count) else PreviousIndex(i)
  }

  /** The index shown after `presses`, as the page is written: the effect's
      dependency is the array the render's `filter` rebuilds, so the effect
      runs after the mount and again after every press. */
  function ShownAsWritten(lessons: seq<UiLesson>, nav: Option<string>, presses: seq<Press>): int
    decreases |presses|
  {
    if presses == [] then AfterEffect(lessons, nav, 0)
    else
      var last := presses[|presses| - 1];
      AfterEffect(lessons, nav, Pressed(ShownAsWritten(lessons, nav, presses[..|presses| - 1]), |lessons|, last))
  }

  /** The index shown after `presses` when the effect runs once, after the
      mount, as a dependency on the navigation id would make it. */
  function ShownIntended(lessons: seq<UiLesson>, nav: Option<string>, presses: seq<Press>): int
    decreases |presses|
  {
    if presses == [] then AfterEffect(lessons, nav, 0)
    else
      var last := presses[|presses| - 1];
      Pressed(ShownIntended(lessons, nav, presses[..|presses| - 1]), |lessons|, last)
  }

  /** As written, once the navigation state names one of the lessons, no
      sequence of presses ever leaves that lesson. */
  lemma PressesNeverMove(lessons: seq<UiLesson>, nav: Option<string>, presses: seq<Press>)
    requires PinnedIndex(lessons, nav).Some?
    ensures ShownAsWritten(lessons, nav, presses) == PinnedIndex(lessons, nav).value
  {
  }

  /** The player opened from the course page on the third of four lessons:
      as written, Next leaves the third lesson on screen; the intended
      player shows the fourth. */
  lemma NextFromThirdLesson()
    ensures var ls := [PlayerLesson("a"), PlayerLesson("b"), PlayerLesson("c"), PlayerLesson("d")];
      && ShownAsWritten(ls, Some("c"), [NextPress]) == 2
      && ShownIntended(ls, Some("c"), [NextPress]) == 3
  {
    var ls := [PlayerLesson("a"), PlayerLesson("b"), PlayerLesson("c"), PlayerLesson("d")];
    assert ls[0].id != "c" && ls[1].id != "c" && ls[2].id == "c";
    assert IndexOfLesson(ls, "c") == Some(2);
    assert [NextPress][..0] == [];
  }

  function PlayerLesson(id: string): UiLesson
  {
    UiLesson(id, "course", id, "", Video, 0, None)
  }

  function Nexts(k: nat): seq<Press>
  {
    seq(k, _ => NextPress)
  }

  /** With the effect run once, `k` presses of Next from the lesson the page
      opened on move `k` lessons on, stopping at the last one. */
  lemma {:induction false} IntendedNextsAdvance(lessons: seq<UiLesson>, nav: Option<string>, k: nat)
    requires |lessons| > 0
    ensures ShownIntended(lessons, nav, Nexts(k)) == Min(AfterEffect(lessons, nav, 0) + k, |lessons| - 1)
  {
    if k > 0 {
      assert Nexts(k)[..k - 1] == Nexts(k - 1);
      IntendedNextsAdvance(lessons, nav, k - 1);
    }
  }

  /** The page state of one course's player. The navigation state names the
      lesson the course page asked for; its effect runs after every render,
      so the state is always one the effect has already settled. */
  class Player {
    const courseFound: bool
    const lessons: seq<UiLesson>
    const navLessonId: Option<string>
    var index: int
    var completed: seq<string>

    /** The index never leaves the list once the list has a lesson, and it
        is the navigation-state lesson's whenever that is one of the lessons. */
    predicate Valid()
      reads this
    {
      && 0 <= index && (|lessons| > 0 ==> index < |lessons|)
      && (PinnedIndex(lessons, navLessonId).Some? ==> index == PinnedIndex(lessons, navLessonId).value)
    }

    /** The page opened on `courseId`: its lessons from the catalogue, the
        initial completed ids, and the first lesson on screen until the
        mount's run of the navigation effect. */
    constructor (catalog: seq<UiLesson>, courseId: string, courseFound: bool, navLessonId: Option<string>)
      ensures this.courseFound == courseFound && this.navLessonId == navLessonId
      ensures lessons == CourseLessons(catalog, courseId)
      ensures index == AfterEffect(lessons, navLessonId, 0) && completed == InitialCompleted
      ensures Valid()
    {
      this.courseFound := courseFound;
      this.navLessonId := navLessonId;
      lessons := CourseLessons(catalog, courseId);
      index := AfterEffect(CourseLessons(catalog, courseId), navLessonId, 0);
      completed := InitialCompleted;
    }

    /** "Content not found": no course, or no lesson at the index. */
    predicate NotFound()
      reads this
    {
      !courseFound || !(0 <= index < |lessons|)
    }

    /** The progress shown, once the page has a lesson to show. */
    function Progress(): (r: int)
      requires !NotFound()
      reads this
      ensures r == ProgressPercent(|completed|, |lessons|)
      ensures r >= 0
    {
      ProgressPercent(|completed|, |lessons|)
    }

    /** The navigation effect: jump to the lesson named by the navigation
        state when it is a non-empty id found in the list; otherwise stay. */
    method NavigationEffect()
      modifies this
      ensures completed == old(completed)
      ensures index == AfterEffect(lessons, navLessonId, old(index))
      ensures 0 <= old(index) && (|lessons| > 0 ==> old(index) < |lessons|) ==> Valid()
    {
      if navLessonId.Some? && navLessonId.value != "" && |lessons| > 0 {
        var found := IndexOfLesson(lessons, navLessonId.value);
        if found.Some? {
          index := found.value;
        }
      }
    }

    /** `markComplete` on the lesson on screen; the effect's run after the
        re-render finds the index already settled. */
    method MarkComplete()
      requires Valid() && !NotFound()
      modifies this
      ensures Valid()
      ensures completed == WithCompleted(old(completed), lessons[old(index)].id)
      ensures index == old(index)
    {
      if lessons[index].id !in completed {
        completed := completed + [lessons[index].id];
      }
    }

    /** `goToNext`: mark the lesson on screen complete, advance unless it is
        the last one, then the effect's run after the re-render. With a
        navigation-state lesson the index snaps back to it. */
    method GoToNext()
      requires Valid() && !NotFound()
      modifies this
      ensures Valid()
      ensures completed == WithCompleted(old(completed), old(lessons[index]).id)
      ensures index == AfterEffect(lessons, navLessonId, NextIndex(old(index), |lessons|))
      ensures PinnedIndex(lessons, navLessonId).Some? ==> index == old(index)
      ensures PinnedIndex(lessons, navLessonId).None? ==> index == NextIndex(old(index), |lessons|)
    {
      MarkComplete();
      if index < |lessons| - 1 {
        index := index + 1;
      }
      NavigationEffect();
    }

    /** `goToPrevious`: one lesson back unless at the first, then the
        effect's run after the re-render. With a navigation-state lesson the
        index snaps back to it. */
    method GoToPrevious()
      requires Valid()
      modifies this
      ensures Valid()
      ensures completed == old(completed)
      ensures index == AfterEffect(lessons, navLessonId, PreviousIndex(old(index)))
      ensures PinnedIndex(lessons, navLessonId).Some? ==> index == old(index)
      ensures PinnedIndex(lessons, navLessonId).None? ==> index == PreviousIndex(old(index))
    {
      if index > 0 {
        index := index - 1;
      }
      NavigationEffect();
    }
  }
}
