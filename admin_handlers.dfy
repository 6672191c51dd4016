/** handlers/admin_handlers.py: the two pieces of the admin handlers that are not Telegram I/O —
    cutting a long text into messages, and adding test sentences written one per line as
    `test=+=answer`. */
module AdminHandlers {
  import opened Wrappers
  import opened Db
  import Text
  import TestingRepo
  import Testing

  // ---------------------------------------------------------------- send_long_message

  /** The paragraphs each followed by a newline, as send_long_message re-emits them. */
  function Terminated(paragraphs: seq<string>): (s: string)
    ensures |s| >= |paragraphs|
    ensures paragraphs != [] ==> s[|s| - 1] == '\n'
  {
    if paragraphs == [] then "" else Terminated(paragraphs[..|paragraphs| - 1]) + paragraphs[|paragraphs| - 1] + "\n"
  }

  /** Re-emitting every paragraph of `text.split('\n')` gives the text plus a final newline. */
  lemma {:induction false} TerminatedJoin(paragraphs: seq<string>)
    requires paragraphs != []
    ensures Terminated(paragraphs) == Text.Join(paragraphs, "\n") + "\n"
    decreases |paragraphs|
  {
    var init := paragraphs[..|paragraphs| - 1];
    if |paragraphs| == 1 {
      assert init == [];
    } else {
      TerminatedJoin(init);
      JoinSnoc(init, paragraphs[|paragraphs| - 1], "\n");
      assert paragraphs == init + [paragraphs[|paragraphs| - 1]];
    }
  }

  lemma {:induction false} JoinSnoc(parts: seq<string>, last: string, sep: string)
    requires parts != []
    ensures Text.Join(parts + [last], sep) == Text.Join(parts, sep) + sep + last
    decreases |parts|
  {
    if |parts| == 1 {
      assert parts + [last] == [parts[0]] + [last];
      Text.JoinCons(parts[0], [last], sep);
    } else {
      assert parts + [last] == [parts[0]] + (parts[1..] + [last]);
      Text.JoinCons(parts[0], parts[1..] + [last], sep);
      JoinSnoc(parts[1..], last, sep);
      Text.JoinCons(parts[0], parts[1..], sep);
      assert parts == [parts[0]] + parts[1..];
    }
  }

  /** A chunk respects the limit, or it is empty, or it is one paragraph on its own. */
  ghost predicate ChunkFits(chunk: string, maxLength: int, paragraphs: seq<string>)
  {
    chunk == "" || |chunk| <= maxLength || exists j :: 0 <= j < |paragraphs| && chunk == paragraphs[j] + "\n"
  }

  /** What holds after send_long_message has gone through the first `i` paragraphs. */
  ghost predicate Sending(paragraphs: seq<string>, maxLength: int, i: int, chunks: seq<string>, current: string)
  {
    && 0 <= i <= |paragraphs|
    && Text.Concat(chunks) + current == Terminated(paragraphs[..i])
    && (i == 0 ==> current == "" && chunks == [])
    && (i > 0 ==> current != "" && current[|current| - 1] == '\n')
    && (forall k :: 0 <= k < |chunks| ==> ChunkFits(chunks[k], maxLength, paragraphs))
    && ChunkFits(current, maxLength, paragraphs)
    && (forall k :: 0 < k < |chunks| ==> chunks[k] != "")
    && (i > 0 && chunks == [] ==> |paragraphs[0]| < maxLength)
    && (i > 0 && chunks != [] ==> (chunks[0] == "" <==> |paragraphs[0]| >= maxLength))
  }

  /** A paragraph that still fits is appended to the current message. */
  lemma Appended(paragraphs: seq<string>, maxLength: int, i: int, chunks: seq<string>, current: string)
    requires Sending(paragraphs, maxLength, i, chunks, current) && i < |paragraphs|
    requires |current| + |paragraphs[i]| < maxLength
    ensures Sending(paragraphs, maxLength, i + 1, chunks, current + paragraphs[i] + "\n")
  {
    assert paragraphs[..i + 1] == paragraphs[..i] + [paragraphs[i]];
  }

  /** Otherwise the current message is sent and the paragraph starts the next one. */
  lemma Flushed(paragraphs: seq<string>, maxLength: int, i: int, chunks: seq<string>, current: string)
    requires Sending(paragraphs, maxLength, i, chunks, current) && i < |paragraphs|
    requires |current| + |paragraphs[i]| >= maxLength
    ensures Sending(paragraphs, maxLength, i + 1, chunks + [current], paragraphs[i] + "\n")
  {
    assert paragraphs[..i + 1] == paragraphs[..i] + [paragraphs[i]];
    Text.ConcatAppend(chunks, [current]);
    var next := chunks + [current];
    assert forall k :: 0 <= k < |chunks| ==> next[k] == chunks[k];
  }

  /** Once every paragraph is consumed, the messages sent with the last one re-emit every paragraph. */
  lemma Drained(paragraphs: seq<string>, maxLength: int, chunks: seq<string>, current: string)
    requires Sending(paragraphs, maxLength, |paragraphs|, chunks, current) && paragraphs != []
    ensures current != ""
    ensures var sent := chunks + [current];
      && Text.Concat(sent) == Terminated(paragraphs)
      && sent[|sent| - 1][|sent[|sent| - 1]| - 1] == '\n'
      && (forall k :: 0 <= k < |sent| ==> ChunkFits(sent[k], maxLength, paragraphs))
      && (forall k :: 0 < k < |sent| ==> sent[k] != "")
      && (sent[0] == "" <==> |paragraphs[0]| >= maxLength)
  {
    assert paragraphs[..|paragraphs|] == paragraphs;
    Text.ConcatAppend(chunks, [current]);
    FitAppended(chunks, current, maxLength, paragraphs);
    var sent := chunks + [current];
    assert sent[0] == if chunks == [] then current else chunks[0];
  }

  /** One more fitting, non-empty message keeps every message fitting and every later one non-empty. */
  lemma FitAppended(chunks: seq<string>, chunk: string, maxLength: int, paragraphs: seq<string>)
    requires forall k :: 0 <= k < |chunks| ==> ChunkFits(chunks[k], maxLength, paragraphs)
    requires forall k :: 0 < k < |chunks| ==> chunks[k] != ""
    requires ChunkFits(chunk, maxLength, paragraphs) && chunk != ""
    ensures forall k :: 0 <= k < |chunks + [chunk]| ==> ChunkFits((chunks + [chunk])[k], maxLength, paragraphs)
    ensures forall k :: 0 < k < |chunks + [chunk]| ==> (chunks + [chunk])[k] != ""
  {
    var sent := chunks + [chunk];
    assert forall k :: 0 <= k < |chunks| ==> sent[k] == chunks[k];
  }

  /** The same for the paragraphs of a text: the messages make up the text plus a final newline. */
  lemma Finished(text: string, maxLength: int, chunks: seq<string>, current: string)
    requires Sending(Text.Split(text, "\n"), maxLength, |Text.Split(text, "\n")|, chunks, current)
    ensures current != ""
    ensures var sent := chunks + [current];
      && Text.Concat(sent) == text + "\n"
      && sent[|sent| - 1][|sent[|sent| - 1]| - 1] == '\n'
      && (forall k :: 0 <= k < |sent| ==> ChunkFits(sent[k], maxLength, Text.Split(text, "\n")))
      && (forall k :: 0 < k < |sent| ==> sent[k] != "")
      && (sent[0] == "" <==> |Text.Split(text, "\n")[0]| >= maxLength)
  {
    var paragraphs := Text.Split(text, "\n");
    Drained(paragraphs, maxLength, chunks, current);
    TerminatedJoin(paragraphs);
    Text.JoinSplit(text, "\n");
  }

  /** send_long_message: the messages sent, in order. Paragraphs are appended to the current
      message while it stays below `maxLength`; otherwise the current message is sent (even
      when still empty) and a new one starts with the paragraph. */
  method SendLongMessage(text: string, maxLength: int) returns (chunks: seq<string>)
    ensures Text.Concat(chunks) == text + "\n"
    ensures chunks != [] && chunks[|chunks| - 1] != "" && chunks[|chunks| - 1][|chunks[|chunks| - 1]| - 1] == '\n'
    ensures forall k :: 0 <= k < |chunks| ==> ChunkFits(chunks[k], maxLength, Text.Split(text, "\n"))
    ensures forall k :: 0 < k < |chunks| ==> chunks[k] != ""
    ensures chunks[0] == "" <==> |Text.Split(text, "\n")[0]| >= maxLength
  {
    var paragraphs := Text.Split(text, "\n");
    chunks := [];
    var current := "";
    var i := 0;
    while i < |paragraphs|
      invariant Sending(paragraphs, maxLength, i, chunks, current)
      decreases |paragraphs| - i
    {
      var paragraph := paragraphs[i];
      if |current| + |paragraph| < maxLength {
        Appended(paragraphs, maxLength, i, chunks, current);
        current := current + paragraph + "\n";
      } else {
        Flushed(paragraphs, maxLength, i, chunks, current);
        chunks := chunks + [current];
        current := paragraph + "\n";
      }
      i := i + 1;
    }
    Finished(text, maxLength, chunks, current);
    if current != "" {
      chunks := chunks + [current];
    }
  }

  // ---------------------------------------------------------------- admin_adding_sentence_grammar

  /** `test, answer = line.split('=+=')`: exactly one separator, otherwise the unpacking fails. */
  function ParseLine(line: string): (r: Option<(string, string)>)
    ensures r.Some? <==> |Text.Split(line, "=+=")| == 2
  {
    var parts := Text.Split(line, "=+=");
    if |parts| == 2 then Some((parts[0], parts[1])) else None
  }

  /** What parses was written as test, separator, answer. */
  lemma ParseLineSound(line: string)
    requires ParseLine(line).Some?
    ensures line == ParseLine(line).value.0 + "=+=" + ParseLine(line).value.1
  {
    var parts := Text.Split(line, "=+=");
    Text.JoinSplit(line, "=+=");
    Text.JoinCons(parts[0], parts[1..], "=+=");
    assert parts == [parts[0]] + parts[1..];
  }

  /** A test without '=' and an answer without the separator parse back to themselves. */
  lemma ParseLineComplete(test: string, answer: string)
    requires '=' !in test && Text.Free(answer, "=+=")
    ensures ParseLine(test + "=+=" + answer) == Some((test, answer))
  {
    Text.SplitAfterPrefix(test, "=+=", answer);
    Text.SplitFree(answer, "=+=");
  }

  /** A line with two separators is refused. */
  lemma TwoSeparatorsRefused()
    ensures ParseLine("a=+=b=+=c") == None
  {
    Text.SplitAfterPrefix("a", "=+=", "b=+=c");
    Text.SplitAfterPrefix("b", "=+=", "c");
  }

  /** The (test, answer) pairs of the lines before the first one that does not parse. */
  function ParsedPrefix(lines: seq<string>): (pairs: seq<(string, string)>)
    ensures |pairs| <= |lines|
    ensures forall k :: 0 <= k < |pairs| ==> ParseLine(lines[k]) == Some(pairs[k])
    ensures |pairs| < |lines| ==> ParseLine(lines[|pairs|]).None?
  {
    if lines == [] then []
    else match ParseLine(lines[0])
      case None => []
      case Some(pair) => [pair] + ParsedPrefix(lines[1..])
  }

  /** The lines up to the first failure are the ones that were parsed. */
  lemma ParsedPrefixStep(lines: seq<string>, i: int)
    requires 0 <= i < |lines|
    ensures ParseLine(lines[i]).None? ==> ParsedPrefix(lines[i..]) == []
    ensures ParseLine(lines[i]).Some? ==> ParsedPrefix(lines[i..]) == [ParseLine(lines[i]).value] + ParsedPrefix(lines[i + 1..])
  {
    assert lines[i..][1..] == lines[i + 1..];
  }

  /** The row add_testing_exercise stores for a pair under a given id. */
  function Row(section: string, subsection: string, id: int, pair: (string, string)): (row: TestingExercise)
    ensures row.section == section && row.subsection == subsection && row.id == id && row.test == pair.0
    ensures Testing.NoBreakSpace !in row.answer
  {
    TestingExercise(section, subsection, id, pair.0, Text.Without(pair.1, Testing.NoBreakSpace))
  }

  /** The rows of the pairs, the k-th under id base + k + 1. */
  function Rows(section: string, subsection: string, base: int, pairs: seq<(string, string)>): (r: seq<TestingExercise>)
    ensures |r| == |pairs|
  {
    if pairs == [] then []
    else Rows(section, subsection, base, pairs[..|pairs| - 1])
         + [Row(section, subsection, base + |pairs|, pairs[|pairs| - 1])]
  }

  lemma RowsSnoc(section: string, subsection: string, base: int, pairs: seq<(string, string)>, pair: (string, string))
    ensures Rows(section, subsection, base, pairs + [pair])
            == Rows(section, subsection, base, pairs) + [Row(section, subsection, base + |pairs| + 1, pair)]
  {
    assert (pairs + [pair])[..|pairs|] == pairs;
  }

  /** The k-th row is the k-th pair under id base + k + 1. */
  lemma {:induction false} RowsAt(section: string, subsection: string, base: int, pairs: seq<(string, string)>, k: int)
    requires 0 <= k < |pairs|
    ensures Rows(section, subsection, base, pairs)[k] == Row(section, subsection, base + k + 1, pairs[k])
    decreases |pairs|
  {
    if k < |pairs| - 1 {
      RowsAt(section, subsection, base, pairs[..|pairs| - 1], k);
    }
  }

  /** The exercise table after adding each pair in turn: the k-th pair gets the subsection's
      k-th next id and its answer loses every no-break space. */
  function Inserted(exercises: seq<TestingExercise>, section: string, subsection: string,
                    pairs: seq<(string, string)>): (r: seq<TestingExercise>)
  {
    exercises + Rows(section, subsection, TestingRepo.MaxExerciseId(exercises, section, subsection), pairs)
  }

  /** The old exercises stay in front, and the k-th pair is stored under the subsection's max
      id plus k + 1 with its no-break spaces deleted. */
  lemma InsertedShape(exercises: seq<TestingExercise>, section: string, subsection: string,
                      pairs: seq<(string, string)>)
    ensures var r := Inserted(exercises, section, subsection, pairs);
      |r| == |exercises| + |pairs| && r[..|exercises|] == exercises
    ensures var r := Inserted(exercises, section, subsection, pairs);
      forall k :: 0 <= k < |pairs| ==>
        r[|exercises| + k] == Row(section, subsection, TestingRepo.MaxExerciseId(exercises, section, subsection) + k + 1, pairs[k])
  {
    var base := TestingRepo.MaxExerciseId(exercises, section, subsection);
    var r := Inserted(exercises, section, subsection, pairs);
    forall k | 0 <= k < |pairs|
      ensures r[|exercises| + k] == Row(section, subsection, base + k + 1, pairs[k])
    {
      RowsAt(section, subsection, base, pairs, k);
    }
  }

  /** Adding n lines raises the subsection's max id by n. */
  lemma {:induction false} InsertedMaxId(exercises: seq<TestingExercise>, section: string, subsection: string,
                                         pairs: seq<(string, string)>)
    ensures TestingRepo.MaxExerciseId(Inserted(exercises, section, subsection, pairs), section, subsection)
            == TestingRepo.MaxExerciseId(exercises, section, subsection) + |pairs|
    decreases |pairs|
  {
    if pairs == [] {
      assert Inserted(exercises, section, subsection, pairs) == exercises;
    } else {
      var init := pairs[..|pairs| - 1];
      var last := pairs[|pairs| - 1];
      assert pairs == init + [last];
      InsertedMaxId(exercises, section, subsection, init);
      InsertedSnoc(exercises, section, subsection, init, last);
      MaxAfterAppend(Inserted(exercises, section, subsection, init), section, subsection,
                     Row(section, subsection, TestingRepo.MaxExerciseId(exercises, section, subsection) + |init| + 1, last));
    }
  }

  lemma InsertedSnoc(exercises: seq<TestingExercise>, section: string, subsection: string,
                     pairs: seq<(string, string)>, pair: (string, string))
    ensures Inserted(exercises, section, subsection, pairs + [pair])
            == Inserted(exercises, section, subsection, pairs)
               + [Row(section, subsection, TestingRepo.MaxExerciseId(exercises, section, subsection) + |pairs| + 1, pair)]
  {
    RowsSnoc(section, subsection, TestingRepo.MaxExerciseId(exercises, section, subsection), pairs, pair);
  }

  /** One more add_testing_exercise call extends the table exactly as one more line does. */
  lemma InsertedStep(exercises: seq<TestingExercise>, section: string, subsection: string,
                     pairs: seq<(string, string)>, pair: (string, string), before: seq<TestingExercise>)
    requires before == Inserted(exercises, section, subsection, pairs)
    ensures Inserted(exercises, section, subsection, pairs + [pair])
            == before + [Row(section, subsection, TestingRepo.MaxExerciseId(before, section, subsection) + 1, pair)]
  {
    InsertedMaxId(exercises, section, subsection, pairs);
    InsertedSnoc(exercises, section, subsection, pairs, pair);
  }

  /** One loop step of the handler: what add_testing_exercise appends for the next line is
      what one more line adds to the specification. */
  lemma LineStored(start: seq<TestingExercise>, section: string, subsection: string, added: seq<(string, string)>,
                   pair: (string, string), before: seq<TestingExercise>, after: seq<TestingExercise>)
    requires before == Inserted(start, section, subsection, added)
    requires after == before + [TestingExercise(section, subsection, TestingRepo.MaxExerciseId(before, section, subsection) + 1,
                                                pair.0, Text.Without(pair.1, Testing.NoBreakSpace))]
    ensures after == Inserted(start, section, subsection, added + [pair])
  {
    InsertedStep(start, section, subsection, added, pair, before);
  }

  /** Appending an exercise under max + 1 raises the subsection's max by one. */
  lemma MaxAfterAppend(exercises: seq<TestingExercise>, section: string, subsection: string, added: TestingExercise)
    requires added.section == section && added.subsection == subsection
    requires added.id == TestingRepo.MaxExerciseId(exercises, section, subsection) + 1
    ensures TestingRepo.MaxExerciseId(exercises + [added], section, subsection) == added.id
  {
    assert (exercises + [added])[..|exercises|] == exercises;
  }

  /** The replies of the handler. */
  datatype Reply = AddedMany(count: nat) | AddedOne | FormatError

  /** The loop body of the handler for one well-formed line: exercise_manager.add_testing_exercise on
      its two halves, which extends the stored exercises as one more line extends the specification. */
  method StoreLine(service: Testing.TestingService, section: string, subsection: string, pair: (string, string),
                   ghost start: seq<TestingExercise>, ghost added: seq<(string, string)>)
    modifies service.repo.db`exercises
    requires service.repo.db.exercises == Inserted(start, section, subsection, added)
    ensures service.repo.db.exercises == Inserted(start, section, subsection, added + [pair])
  {
    ghost var before := service.repo.db.exercises;
    service.AddTestingExercise(section, subsection, pair.0, pair.1);
    LineStored(start, section, subsection, added, pair, before, service.repo.db.exercises);
  }

  /** The handler's loop over the lines of the message: each line is parsed and stored in turn; the
      first line that does not parse stops it, and what was stored before it stays stored. */
  method StoreLines(service: Testing.TestingService, section: string, subsection: string, lines: seq<string>)
    returns (complete: bool)
    modifies service.repo.db`exercises
    ensures service.repo.db.exercises == Inserted(old(service.repo.db.exercises), section, subsection, ParsedPrefix(lines))
    ensures complete <==> |ParsedPrefix(lines)| == |lines|
  {
    ghost var start := service.repo.db.exercises;
    ghost var added: seq<(string, string)> := [];
    var i := 0;
    while i < |lines|
      invariant 0 <= i <= |lines|
      invariant ParsedPrefix(lines) == added + ParsedPrefix(lines[i..])
      invariant |added| == i
      invariant service.repo.db.exercises == Inserted(start, section, subsection, added)
    {
      var parsed := ParseLine(lines[i]);
      if parsed.None? {
        assert ParsedPrefix(lines) == added by {
          ParsedPrefixStep(lines, i);
        }
        return false;
      }
      assert ParsedPrefix(lines) == (added + [parsed.value]) + ParsedPrefix(lines[i + 1..]) by {
        ParsedPrefixStep(lines, i);
      }
      StoreLine(service, section, subsection, parsed.value, start, added);
      added := added + [parsed.value];
      i := i + 1;
    }
    assert ParsedPrefix(lines) == added by {
      assert lines[i..] == [];
    }
    return true;
  }

  /** admin_adding_sentence_grammar: the message is split into lines and stored line by line.
      A line without exactly one `=+=` stops the handler with the format error reply; otherwise the
      reply reports how many lines were added, or that one was added. */
  method AddSentences(service: Testing.TestingService, section: string, subsection: string, text: string)
    returns (reply: Reply)
    modifies service.repo.db`exercises
    ensures service.repo.db.exercises
            == Inserted(old(service.repo.db.exercises), section, subsection, ParsedPrefix(Text.Split(text, "\n")))
    ensures reply == FormatError <==> |ParsedPrefix(Text.Split(text, "\n"))| < |Text.Split(text, "\n")|
    ensures reply != FormatError ==> reply == (if |Text.Split(text, "\n")| > 1 then AddedMany(|Text.Split(text, "\n")|) else AddedOne)
  {
    var lines := Text.Split(text, "\n");
    var complete := StoreLines(service, section, subsection, lines);
    if !complete {
      return FormatError;
    }
    reply := if |lines| > 1 then AddedMany(|lines|) else AddedOne;
  }
}
