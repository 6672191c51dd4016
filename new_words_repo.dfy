/** db/repositories/new_words.py: the catalogue of words to learn, by section and subsection. */
module NewWordsRepo {
  import opened Tables
  import opened Db
  import Text

  /** The word with key (section, subsection, id). */
  predicate IsEntry(w: NewWord, section: string, subsection: string, id: int)
  {
    w.section == section && w.subsection == subsection && w.id == id
  }

  /** get_max_exercise_id: the largest id in the subsection, 0 when it is empty. */
  function MaxWordId(catalogue: seq<NewWord>, section: string, subsection: string): (m: int)
    ensures forall w :: w in catalogue && w.section == section && w.subsection == subsection ==> w.id <= m
    ensures (forall w :: w in catalogue ==> !(w.section == section && w.subsection == subsection)) ==> m == 0
    ensures (exists w :: w in catalogue && w.section == section && w.subsection == subsection)
            ==> exists w :: w in catalogue && w.section == section && w.subsection == subsection && w.id == m
  {
    var inSub := Filter(catalogue, (w: NewWord) => w.section == section && w.subsection == subsection);
    assert inSub == [] ==> forall w :: w in catalogue ==> !(w.section == section && w.subsection == subsection);
    MaxKey(inSub, (w: NewWord) => w.id)
  }

  /** list_exercises: the words of every subsection with that name (of any section), by id. */
  function ListWords(catalogue: seq<NewWord>, subsection: string): (r: seq<NewWord>)
    ensures SortedBy(r, (w: NewWord) => w.id)
    ensures multiset(r) == multiset(Filter(catalogue, (w: NewWord) => w.subsection == subsection))
  {
    SortBy(Filter(catalogue, (w: NewWord) => w.subsection == subsection), (w: NewWord) => w.id)
  }

  /** count_exercises. */
  function CountWords(catalogue: seq<NewWord>, section: string, subsection: string): (n: nat)
    ensures n == |Filter(catalogue, (w: NewWord) => w.section == section && w.subsection == subsection)|
  {
    Count(catalogue, (w: NewWord) => w.section == section && w.subsection == subsection)
  }

  /** get_subsection_names: each subsection of the section once, in increasing order. */
  function SubsectionNames(catalogue: seq<NewWord>, section: string): (r: seq<string>)
    ensures Text.StrictlySorted(r)
    ensures forall n :: n in r <==> exists w :: w in catalogue && w.section == section && w.subsection == n
  {
    var inSection := Filter(catalogue, (w: NewWord) => w.section == section);
    var names := Project(inSection, (w: NewWord) => w.subsection);
    assert forall n :: n in names <==> exists w :: w in inSection && w.subsection == n by {
      forall n ensures n in names <==> exists w :: w in inSection && w.subsection == n {
        if n in names {
          var i :| 0 <= i < |names| && names[i] == n;
          assert inSection[i] in inSection;
        }
        if exists w :: w in inSection && w.subsection == n {
          var w :| w in inSection && w.subsection == n;
          var i :| 0 <= i < |inSection| && inSection[i] == w;
          assert names[i] == n;
        }
      }
    }
    Text.SortedNames(names)
  }

  /** The catalogue after update_exercise: the keyed word gets the new russian and english. */
  function WordUpdated(catalogue: seq<NewWord>, section: string, subsection: string, index: int,
                       russian: string, english: string): (r: seq<NewWord>)
    ensures |r| == |catalogue|
    ensures forall i :: 0 <= i < |catalogue| ==>
      r[i] == if IsEntry(catalogue[i], section, subsection, index)
              then catalogue[i].(russian := russian, english := english) else catalogue[i]
  {
    UpdateWhere(catalogue, (w: NewWord) => IsEntry(w, section, subsection, index),
                (w: NewWord) => w.(russian := russian, english := english))
  }

  class NewWordsRepository {
    const db: Database

    constructor (db: Database)
      ensures this.db == db
    {
      this.db := db;
    }

    /** add_exercise. */
    method AddWord(word: NewWord)
      modifies db`newWords
      ensures db.newWords == old(db.newWords) + [word]
    {
      db.newWords := db.newWords + [word];
    }

    /** update_exercise. */
    method UpdateWord(section: string, subsection: string, index: int, russian: string, english: string)
      modifies db`newWords
      ensures db.newWords == WordUpdated(old(db.newWords), section, subsection, index, russian, english)
    {
      db.newWords := WordUpdated(db.newWords, section, subsection, index, russian, english);
    }

    /** delete_exercise. */
    method DeleteWord(section: string, subsection: string, index: int)
      modifies db`newWords
      ensures db.newWords == DeleteWhere(old(db.newWords), (w: NewWord) => IsEntry(w, section, subsection, index))
      ensures forall w :: w in db.newWords <==> w in old(db.newWords) && !IsEntry(w, section, subsection, index)
    {
      db.newWords := DeleteWhere(db.newWords, (w: NewWord) => IsEntry(w, section, subsection, index));
    }
  }
}
