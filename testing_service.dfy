/** services/testing.py: adding, listing, drawing, editing and deleting test sentences. */
module Testing {
  import opened Wrappers
  import opened Tables
  import opened Db
  import opened TestingRepo
  import Text
  import ProgressRepo
  import ProgressService

  /** U+00A0 NO-BREAK SPACE, which add_testing_exercise deletes from answers. */
  const NoBreakSpace: char := 160 as char

  /** One line of the exercise listing: "{id}) {test}. Ответ: {answer}" and a blank line. */
  function ExerciseLine(e: TestingExercise): (line: string)
    ensures |line| >= 2 && line[|line| - 2..] == "\n\n"
  {
    Text.IntToString(e.id) + ") " + e.test + ". Ответ: " + e.answer + "\n\n"
  }

  /** The listing of get_testing_exercises: empty exactly when there is nothing to list. */
  function Listing(exercises: seq<TestingExercise>): (text: string)
    ensures text == "" <==> exercises == []
  {
    if exercises == [] then "" else ExerciseLine(exercises[0]) + Listing(exercises[1..])
  }

  /** A correct testing answer retires the exercise: after it is marked, the exercise is no
      longer among the user's available exercises. */
  lemma SolvedExerciseNotAvailable(exercises: seq<TestingExercise>, progress: seq<ProgressRow>, userId: int,
                                   section: string, subsection: string, exerciseId: int, today: int)
    ensures var after := ProgressService.Marked(progress, userId, ProgressRepo.TestingType, section, subsection,
                                                exerciseId, true, today);
      forall e :: e in AvailableExercises(exercises, after, section, subsection, userId) ==> e.id != exerciseId
  {
    var after := ProgressService.Marked(progress, userId, ProgressRepo.TestingType, section, subsection,
                                        exerciseId, true, today);
    var isIt := (p: ProgressRow) => ProgressRepo.IsAttempt(p, userId, ProgressRepo.TestingType, section, subsection, exerciseId);
    ProgressService.MarkedCount(progress, userId, ProgressRepo.TestingType, section, subsection, exerciseId, true, today);
    ProgressService.MarkedLatestAnswer(progress, userId, ProgressRepo.TestingType, section, subsection, exerciseId, true, today);
    var matches := Filter(after, isIt);
    assert |matches| >= 1;
    var p := matches[0];
    assert p in matches;
    assert IsSolvedBy(p, userId, section, subsection) && p.exerciseId == exerciseId;
  }

  class TestingService {
    const repo: TestingRepository

    constructor (repo: TestingRepository)
      ensures this.repo == repo
    {
      this.repo := repo;
    }

    /** add_testing_exercise: appended under the next id of its subsection, with every no-break
        space deleted from the answer; no exercise of the subsection had that id. */
    method AddTestingExercise(section: string, subsection: string, test: string, answer: string)
      modifies repo.db`exercises
      ensures var nextId := MaxExerciseId(old(repo.db.exercises), section, subsection) + 1;
        repo.db.exercises == old(repo.db.exercises)
                             + [TestingExercise(section, subsection, nextId, test, Text.Without(answer, NoBreakSpace))]
      ensures forall e :: e in old(repo.db.exercises) && e.section == section && e.subsection == subsection
                          ==> e.id < MaxExerciseId(old(repo.db.exercises), section, subsection) + 1
      ensures NoBreakSpace !in repo.db.exercises[|repo.db.exercises| - 1].answer
    {
      var maxId := MaxExerciseId(repo.db.exercises, section, subsection);
      var nextId := maxId + 1;
      var exercise := TestingExercise(section, subsection, nextId, test, Text.Without(answer, NoBreakSpace));
      repo.AddExercise(exercise);
    }

    /** get_testing_exercises: the listing of the subsection's exercises, by id. */
    method GetTestingExercises(subsection: string) returns (text: string)
      ensures text == Listing(ListExercises(repo.db.exercises, subsection))
      ensures text == "" <==> forall e :: e in repo.db.exercises ==> e.subsection != subsection
    {
      var exercises := ListExercises(repo.db.exercises, subsection);
      text := Listing(exercises);
      var inSub := Filter(repo.db.exercises, (e: TestingExercise) => e.subsection == subsection);
      assert exercises == [] <==> inSub == [] by {
        if inSub != [] { assert inSub[0] in multiset(exercises); }
        if exercises != [] { assert exercises[0] in multiset(inSub); }
      }
      if inSub != [] { assert inSub[0] in inSub; }
    }

    /** get_count_testing_exercises_in_subsection. */
    method GetCountTestingExercisesInSubsection(section: string, subsection: string) returns (n: nat)
      ensures n == CountExercises(repo.db.exercises, section, subsection)
    {
      n := CountExercises(repo.db.exercises, section, subsection);
    }

    /** get_random_testing_exercise: None when every exercise of the subsection is solved;
        otherwise the text, answer and id of some available exercise, drawn at random. */
    method GetRandomTestingExercise(section: string, subsection: string, userId: int)
      returns (r: Option<(string, string, int)>)
      ensures r.None? <==> AvailableExercises(repo.db.exercises, repo.db.progress, section, subsection, userId) == []
      ensures r.Some? ==> exists e :: e in AvailableExercises(repo.db.exercises, repo.db.progress, section, subsection, userId)
                                      && r.value == (e.test, e.answer, e.id)
    {
      var exercises := AvailableExercises(repo.db.exercises, repo.db.progress, section, subsection, userId);
      if exercises == [] {
        return None;
      }
      var i :| 0 <= i < |exercises|;
      var chosen := exercises[i];
      return Some((chosen.test, chosen.answer, chosen.id));
    }

    /** get_section_names. */
    method GetSectionNames() returns (names: seq<string>)
      ensures names == SectionNames(repo.db.exercises)
      ensures Text.StrictlySorted(names)
    {
      names := SectionNames(repo.db.exercises);
    }

    /** get_subsection_names. */
    method GetSubsectionNames(section: string) returns (names: seq<string>)
      ensures names == SubsectionNames(repo.db.exercises, section)
      ensures Text.StrictlySorted(names)
    {
      names := SubsectionNames(repo.db.exercises, section);
    }

    /** edit_testing_exercise. */
    method EditTestingExercise(section: string, subsection: string, test: string, answer: string, index: int)
      modifies repo.db`exercises
      ensures repo.db.exercises == ExerciseUpdated(old(repo.db.exercises), section, subsection, index, test, answer)
    {
      repo.UpdateExercise(section, subsection, index, test, answer);
    }

    /** delete_testing_exercise. */
    method DeleteTestingExercise(section: string, subsection: string, index: int)
      modifies repo.db`exercises
      ensures forall e :: e in repo.db.exercises <==> e in old(repo.db.exercises) && !IsExercise(e, section, subsection, index)
    {
      repo.DeleteExercise(section, subsection, index);
    }
  }
}
