/** services/new_words.py: adding, listing, editing and deleting catalogue words. */
module NewWords {
  import opened Tables
  import opened Db
  import opened NewWordsRepo
  import Text
  import WordsLearningRepo

  /** One line of the word listing: "{id}) {russian} – {english}" (with an en dash). */
  function WordLine(w: NewWord): (line: string)
    ensures |line| >= 1 && line[|line| - 1] == '\n'
  {
    Text.IntToString(w.id) + ") " + w.russian + " – " + w.english + "\n"
  }

  /** The listing of get_new_words_exercises: empty exactly when there is nothing to list. */
  function Listing(words: seq<NewWord>): (text: string)
    ensures text == "" <==> words == []
  {
    if words == [] then "" else WordLine(words[0]) + Listing(words[1..])
  }

  /** The subsection argument of get_new_words_exercises, a name or a number (a user's
      personal subsection is named after the user id). */
  datatype SubsectionKey = Named(name: string) | Numbered(n: int)

  /** str(subsection). */
  function KeyText(k: SubsectionKey): string
  {
    match k
    case Named(name) => name
    case Numbered(n) => Text.IntToString(n)
  }

  /** The next personal id the learning repository hands out is the next id of the user's own
      subsection in the catalogue: both read the largest id filed under str(user_id). */
  lemma PersonalIdsAgree(catalogue: seq<NewWord>, userId: int)
    ensures var key := Text.IntToString(userId);
      WordsLearningRepo.MaxCustomWordId(catalogue, userId) == MaxWordId(catalogue, key, key)
  {
    var key := Text.IntToString(userId);
    FilterCongruent(catalogue, (w: NewWord) => WordsLearningRepo.IsPersonalWord(w, userId),
                    (w: NewWord) => w.section == key && w.subsection == key);
  }

  class NewWordsService {
    const repo: NewWordsRepository

    constructor (repo: NewWordsRepository)
      ensures this.repo == repo
    {
      this.repo := repo;
    }

    /** add_new_words_exercise: appended under the next id of its subsection; no word of the
        subsection had that id. */
    method AddNewWordsExercise(section: string, subsection: string, russian: string, english: string)
      modifies repo.db`newWords
      ensures var nextId := MaxWordId(old(repo.db.newWords), section, subsection) + 1;
        repo.db.newWords == old(repo.db.newWords) + [NewWord(section, subsection, nextId, russian, english)]
      ensures forall w :: w in old(repo.db.newWords) && w.section == section && w.subsection == subsection
                          ==> w.id < MaxWordId(old(repo.db.newWords), section, subsection) + 1
    {
      var maxId := MaxWordId(repo.db.newWords, section, subsection);
      var nextId := maxId + 1;
      repo.AddWord(NewWord(section, subsection, nextId, russian, english));
    }

    /** delete_new_words_exercise. */
    method DeleteNewWordsExercise(section: string, subsection: string, index: int)
      modifies repo.db`newWords
      ensures forall w :: w in repo.db.newWords <==> w in old(repo.db.newWords) && !IsEntry(w, section, subsection, index)
    {
      repo.DeleteWord(section, subsection, index);
    }

    /** edit_new_words_exercise. */
    method EditNewWordsExercise(section: string, subsection: string, russian: string, english: string, index: int)
      modifies repo.db`newWords
      ensures repo.db.newWords == WordUpdated(old(repo.db.newWords), section, subsection, index, russian, english)
    {
      repo.UpdateWord(section, subsection, index, russian, english);
    }

    /** get_count_new_words_exercises_in_subsection. */
    method GetCountNewWordsExercisesInSubsection(section: string, subsection: string) returns (n: nat)
      ensures n == CountWords(repo.db.newWords, section, subsection)
    {
      n := CountWords(repo.db.newWords, section, subsection);
    }

    /** get_new_words_exercises: the listing of the words filed under str(subsection), by id. */
    method GetNewWordsExercises(subsection: SubsectionKey) returns (text: string)
      ensures text == Listing(ListWords(repo.db.newWords, KeyText(subsection)))
      ensures text == "" <==> forall w :: w in repo.db.newWords ==> w.subsection != KeyText(subsection)
    {
      var name := KeyText(subsection);
      var words := ListWords(repo.db.newWords, name);
      text := Listing(words);
      var inSub := Filter(repo.db.newWords, (w: NewWord) => w.subsection == name);
      assert words == [] <==> inSub == [] by {
        if inSub != [] { assert inSub[0] in multiset(words); }
        if words != [] { assert words[0] in multiset(inSub); }
      }
      if inSub != [] { assert inSub[0] in inSub; }
    }

    /** get_subsection_names. */
    method GetSubsectionNames(section: string) returns (names: seq<string>)
      ensures names == SubsectionNames(repo.db.newWords, section)
      ensures Text.StrictlySorted(names)
    {
      names := SubsectionNames(repo.db.newWords, section);
    }
  }
}
