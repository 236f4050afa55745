/** The log of unanswered questions: one JSON file holding a list of
    `{"question": ...}` records. */
module Unanswered {
  import opened Base

  datatype UnansweredRecord = UnansweredRecord(question: string)

  type LogFile = FileState<seq<UnansweredRecord>>

  /** What `save_unanswered_question` starts from: the decoded list, or
      `[]` when the file is absent or is text that is not JSON. */
  function Existing(file: LogFile): seq<UnansweredRecord>
  {
    if file.Decoded? then file.contents else []
  }

  /** `save_unanswered_question(question)`: only `JSONDecodeError` is
      caught, so a file that is not UTF-8 raises before anything is
      written; otherwise the list is rewritten with one more record at its
      end. */
  function SaveUnanswered(file: LogFile, question: string): (r: Outcome<LogFile>)
    ensures r.ServerError? <==> file.NotUtf8?
    ensures r.Ok? ==> r.value.Decoded?
    ensures r.Ok? ==> |r.value.contents| == |Existing(file)| + 1
    ensures r.Ok? ==> r.value.contents[..|Existing(file)|] == Existing(file)
    ensures r.Ok? ==> r.value.contents[|Existing(file)|] == UnansweredRecord(question)
  {
    if file.NotUtf8? then ServerError
    else Ok(Decoded(Existing(file) + [UnansweredRecord(question)]))
  }

  /** `/get-unanswered`: `[]` when there is no file; a file that cannot be
      read as JSON raises. */
  function GetUnanswered(file: LogFile): (r: Outcome<seq<UnansweredRecord>>)
    ensures r.ServerError? <==> file.Raises()
    ensures r.Ok? ==> r.value == Existing(file)
  {
    match file
    case Missing => Ok([])
    case NotUtf8 => ServerError
    case Undecodable => ServerError
    case Decoded(records) => Ok(records)
  }

  /** Saving several questions, in order, stopping at the first raise. */
  function SaveAll(file: LogFile, questions: seq<string>): Outcome<LogFile>
    decreases |questions|
  {
    if |questions| == 0 then Ok(file)
    else
      match SaveUnanswered(file, questions[0])
      case ServerError => ServerError
      case Ok(next) => SaveAll(next, questions[1..])
  }

  function Records(questions: seq<string>): seq<UnansweredRecord>
  {
    seq(|questions|, i requires 0 <= i < |questions| => UnansweredRecord(questions[i]))
  }

  /** Saving the first question of a non-empty list from a file that is
      UTF-8 leaves the decoded log one record longer. */
  lemma SaveFirst(file: LogFile, questions: seq<string>)
    requires |questions| > 0 && !file.NotUtf8?
    ensures SaveAll(file, questions) == SaveAll(Decoded(Existing(file) + [UnansweredRecord(questions[0])]), questions[1..])
  {
  }

  /** Append-only log: saving a non-empty list of questions raises exactly
      when the file is not UTF-8; otherwise the log reads back as the
      earlier records (none, if the file was absent or not JSON) followed
      by one record per question, in order. */
  lemma {:induction false} LogRoundTrip(file: LogFile, questions: seq<string>)
    ensures questions == [] ==> SaveAll(file, questions) == Ok(file)
    ensures questions != [] ==> (SaveAll(file, questions).ServerError? <==> file.NotUtf8?)
    ensures questions != [] && SaveAll(file, questions).Ok? ==>
      GetUnanswered(SaveAll(file, questions).value) == Ok(Existing(file) + Records(questions))
    decreases |questions|
  {
    if |questions| > 0 && !file.NotUtf8? {
      var rest := questions[1..];
      var next: LogFile := Decoded(Existing(file) + [UnansweredRecord(questions[0])]);
      SaveFirst(file, questions);
      LogRoundTrip(next, rest);
      assert Records(questions) == [UnansweredRecord(questions[0])] + Records(rest);
      if |rest| == 0 {
        assert Records(rest) == [];
        assert Existing(file) + Records(questions) == next.contents;
      } else {
        assert next.contents + Records(rest) == Existing(file) + Records(questions);
      }
    }
  }
}
