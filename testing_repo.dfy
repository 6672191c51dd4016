/** db/repositories/testing.py: the catalogue of test sentences and the exercises a user has
    not solved yet. */
module TestingRepo {
  import opened Tables
  import opened Db
  import Text

  /** The exercise with key (section, subsection, id). */
  predicate IsExercise(e: TestingExercise, section: string, subsection: string, id: int)
  {
    e.section == section && e.subsection == subsection && e.id == id
  }

  /** Some exercise of the table belongs to the subsection. */
  predicate HasSubsection(exercises: seq<TestingExercise>, section: string, subsection: string)
  {
    exists e :: e in exercises && e.section == section && e.subsection == subsection
  }

  /** get_max_exercise_id: the largest id in the subsection, 0 when it is empty. */
  function MaxExerciseId(exercises: seq<TestingExercise>, section: string, subsection: string): (m: int)
    ensures forall e :: e in exercises && e.section == section && e.subsection == subsection ==> e.id <= m
    ensures !HasSubsection(exercises, section, subsection) ==> m == 0
    ensures HasSubsection(exercises, section, subsection)
            ==> exists e :: e in exercises && e.section == section && e.subsection == subsection && e.id == m
    decreases |exercises|
  {
    if exercises == [] then 0
    else
      var init := exercises[..|exercises| - 1];
      var last := exercises[|exercises| - 1];
      var rest := MaxExerciseId(init, section, subsection);
      assert forall e :: e in exercises <==> e in init || e == last by {
        assert exercises == init + [last];
      }
      if !(last.section == section && last.subsection == subsection) then rest
      else if !HasSubsection(init, section, subsection) || last.id > rest then last.id
      else rest
  }

  /** list_exercises: the exercises of every subsection with that name (of any section), by id. */
  function ListExercises(exercises: seq<TestingExercise>, subsection: string): (r: seq<TestingExercise>)
    ensures SortedBy(r, (e: TestingExercise) => e.id)
    ensures multiset(r) == multiset(Filter(exercises, (e: TestingExercise) => e.subsection == subsection))
  {
    SortBy(Filter(exercises, (e: TestingExercise) => e.subsection == subsection), (e: TestingExercise) => e.id)
  }

  /** count_exercises. */
  function CountExercises(exercises: seq<TestingExercise>, section: string, subsection: string): (n: nat)
    ensures n == |Filter(exercises, (e: TestingExercise) => e.section == section && e.subsection == subsection)|
  {
    Count(exercises, (e: TestingExercise) => e.section == section && e.subsection == subsection)
  }

  /** A record of a correct answer by the user to an exercise of the subsection (of any type). */
  predicate IsSolvedBy(p: ProgressRow, userId: int, section: string, subsection: string)
  {
    p.userId == userId && p.section == section && p.subsection == subsection && p.success
  }

  /** The ids the user has answered correctly in the subsection. */
  function CompletedIds(progress: seq<ProgressRow>, userId: int, section: string, subsection: string): (ids: seq<int>)
    ensures forall id :: id in ids <==> exists p :: p in progress && IsSolvedBy(p, userId, section, subsection) && p.exerciseId == id
  {
    var solved := Filter(progress, (p: ProgressRow) => IsSolvedBy(p, userId, section, subsection));
    var ids := Project(solved, (p: ProgressRow) => p.exerciseId);
    assert forall id :: id in ids <==> exists p :: p in solved && p.exerciseId == id by {
      forall id ensures id in ids <==> exists p :: p in solved && p.exerciseId == id {
        if id in ids {
          var i :| 0 <= i < |ids| && ids[i] == id;
          assert solved[i] in solved;
        }
        if exists p :: p in solved && p.exerciseId == id {
          var p :| p in solved && p.exerciseId == id;
          var i :| 0 <= i < |solved| && solved[i] == p;
          assert ids[i] == id;
        }
      }
    }
    ids
  }

  /** An exercise of the subsection the user has not answered correctly. */
  predicate IsAvailable(e: TestingExercise, completed: seq<int>, section: string, subsection: string)
  {
    e.section == section && e.subsection == subsection && e.id !in completed
  }

  /** get_available_exercises: the subsection's exercises without a correct answer by the user. */
  function AvailableExercises(exercises: seq<TestingExercise>, progress: seq<ProgressRow>, section: string,
                              subsection: string, userId: int): (r: seq<TestingExercise>)
    ensures forall e :: e in r <==>
      (e in exercises && e.section == section && e.subsection == subsection
       && !exists p :: p in progress && IsSolvedBy(p, userId, section, subsection) && p.exerciseId == e.id)
  {
    var completed := CompletedIds(progress, userId, section, subsection);
    Filter(exercises, (e: TestingExercise) => IsAvailable(e, completed, section, subsection))
  }

  /** No more exercises are available than the subsection holds. */
  lemma AvailableWithinCount(exercises: seq<TestingExercise>, progress: seq<ProgressRow>, section: string,
                             subsection: string, userId: int)
    ensures |AvailableExercises(exercises, progress, section, subsection, userId)|
            <= CountExercises(exercises, section, subsection)
  {
    var completed := CompletedIds(progress, userId, section, subsection);
    CountImplies(exercises, (e: TestingExercise) => IsAvailable(e, completed, section, subsection),
                 (e: TestingExercise) => e.section == section && e.subsection == subsection);
  }

  /** get_section_names: each section once, in increasing order. */
  function SectionNames(exercises: seq<TestingExercise>): (r: seq<string>)
    ensures Text.StrictlySorted(r)
    ensures forall n :: n in r <==> exists e :: e in exercises && e.section == n
  {
    var names := Project(exercises, (e: TestingExercise) => e.section);
    assert forall n :: n in names <==> exists e :: e in exercises && e.section == n by {
      forall n ensures n in names <==> exists e :: e in exercises && e.section == n {
        if n in names {
          var i :| 0 <= i < |names| && names[i] == n;
          assert exercises[i] in exercises;
        }
        if exists e :: e in exercises && e.section == n {
          var e :| e in exercises && e.section == n;
          var i :| 0 <= i < |exercises| && exercises[i] == e;
          assert names[i] == n;
        }
      }
    }
    Text.SortedNames(names)
  }

  /** get_subsection_names: each subsection of the section once, in increasing order. */
  function SubsectionNames(exercises: seq<TestingExercise>, section: string): (r: seq<string>)
    ensures Text.StrictlySorted(r)
    ensures forall n :: n in r <==> exists e :: e in exercises && e.section == section && e.subsection == n
  {
    var inSection := Filter(exercises, (e: TestingExercise) => e.section == section);
    var names := Project(inSection, (e: TestingExercise) => e.subsection);
    assert forall n :: n in names <==> exists e :: e in inSection && e.subsection == n by {
      forall n ensures n in names <==> exists e :: e in inSection && e.subsection == n {
        if n in names {
          var i :| 0 <= i < |names| && names[i] == n;
          assert inSection[i] in inSection;
        }
        if exists e :: e in inSection && e.subsection == n {
          var e :| e in inSection && e.subsection == n;
          var i :| 0 <= i < |inSection| && inSection[i] == e;
          assert names[i] == n;
        }
      }
    }
    Text.SortedNames(names)
  }

  /** The catalogue after update_exercise: the keyed exercise gets the new text and answer. */
  function ExerciseUpdated(exercises: seq<TestingExercise>, section: string, subsection: string, index: int,
                           test: string, answer: string): (r: seq<TestingExercise>)
    ensures |r| == |exercises|
    ensures forall i :: 0 <= i < |exercises| ==>
      r[i] == if IsExercise(exercises[i], section, subsection, index)
              then exercises[i].(test := test, answer := answer) else exercises[i]
  {
    UpdateWhere(exercises, (e: TestingExercise) => IsExercise(e, section, subsection, index),
                (e: TestingExercise) => e.(test := test, answer := answer))
  }

  class TestingRepository {
    const db: Database

    constructor (db: Database)
      ensures this.db == db
    {
      this.db := db;
    }

    /** add_exercise. */
    method AddExercise(exercise: TestingExercise)
      modifies db`exercises
      ensures db.exercises == old(db.exercises) + [exercise]
    {
      db.exercises := db.exercises + [exercise];
    }

    /** update_exercise. */
    method UpdateExercise(section: string, subsection: string, index: int, test: string, answer: string)
      modifies db`exercises
      ensures db.exercises == ExerciseUpdated(old(db.exercises), section, subsection, index, test, answer)
    {
      db.exercises := ExerciseUpdated(db.exercises, section, subsection, index, test, answer);
    }

    /** delete_exercise. */
    method DeleteExercise(section: string, subsection: string, index: int)
      modifies db`exercises
      ensures db.exercises == DeleteWhere(old(db.exercises), (e: TestingExercise) => IsExercise(e, section, subsection, index))
      ensures forall e :: e in db.exercises <==> e in old(db.exercises) && !IsExercise(e, section, subsection, index)
    {
      db.exercises := DeleteWhere(db.exercises, (e: TestingExercise) => IsExercise(e, section, subsection, index));
    }
  }
}
