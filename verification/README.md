# JEC chatbot: answer selection, session and feedback stores

A Dafny model of the core of a small FAQ chat responder. A question is
matched against a knowledge base of answer groups (accepted phrasings plus
one canned answer) in two passes of fuzzy matching, with a fixed default
reply when nothing matches. Around the selector sit three tiny JSON file
stores: per-session conversation history, one file per feedback
submission, and a log of unanswered questions. There is also an offline
script that flattens the feedback files into a CSV table.

Modules, one per concept:

- `Base` (`base.dfy`): `Option`, `FileState` (a JSON file that is
  missing, not UTF-8, UTF-8 but not JSON, or decoded) and `Outcome` (a JSON body, or an
  uncaught exception that becomes a server error).
- `Json` (`base.dfy`): the JSON values the feedback code reads, and
  `dict.get(key, "")`.
- `Text` (`text.dfy`): `str.endswith` and `str.replace(pat, "")`, with
  Python's left-to-right, non-overlapping semantics.
- `Matcher` (`matcher.dfy`): `find_best_answer`. It has a functional
  definition (`FindBestAnswer`), reference characterizations of both
  passes, and the loop version (`FindBestAnswerLoops`) proved equal to it.
- `Sessions` (`sessions.dfy`): `/chat`, `/get-session`, `/reset-session`
  over a map from session id to file state.
- `Unanswered` (`unanswered.dfy`): `save_unanswered_question` and
  `/get-unanswered`.
- `Feedback` (`feedback.dfy`): `/feedback` and `/all-feedbacks` over a
  map from file name to JSON object.
- `FeedbackCsv` (`feedback_csv.dfy`): the CSV export script.

The two scorers of the fuzzy-matching library are parameters of type
`(string, string) -> Score`, where a `Score` is a real in 0..100:
- `full` stands for the default scorer of `process.extractOne`;
- `partial` stands for `fuzz.partial_ratio`.

The knowledge base, file contents, directory listings and timestamps are
parameters too.

Selection rule, as proved:
- **Pass 1.** An entry's score is its best phrasing score under `full`,
  and counts only if it is at least 90. The running best starts at 0 and
  is replaced only on a strictly greater score. So pass 1 ends on the
  highest-scoring entry, and on a tie the earliest one wins (`IsWinner`).
- **Truthiness test.** The source checks `if best_match:`. A winner whose
  answer is `""` therefore falls through to pass 2.
- **Pass 2.** It returns the answer of the first phrasing, in entry order
  then phrasing order, whose `partial` score is at least 90. This is the
  first hit, not the best one (`IsFirstHit`).
- **Otherwise** the result is `DEFAULT_RESPONSE`.
- Entries with no phrasings never influence the result.

Four consequences of the code that are easy to miss:
- **Unreadable session file.** A session file that is not UTF-8 JSON is
  not treated as empty. The `json.load` in `/chat` (main.py:102) raises
  inside the `try`, so the reply is the apology with status 500 and
  nothing is written (`Sessions.Chat`).
- **Fallback logging.** `find_best_answer` only prints on the fallback
  path and never calls `save_unanswered_question`. So no model operation
  ties a log append to the default reply.
- **Listed session id.** The `session_id` that `/all-feedbacks` adds is
  the file name with every ".json" removed (main.py:165). For a record
  submitted under a session id that contains no ".json", that is
  `sid_timestamp`, not the bare session id (`Feedback.ListedSessionId`).
  A session id that does contain ".json" loses it too: "a.json" with
  stamp "1" is listed as "a_1".
- **Unanswered log that is not UTF-8.** `save_unanswered_question`
  catches only `JSONDecodeError` (main.py:39). A file that is not valid
  UTF-8 raises `UnicodeDecodeError` from `json.load`, which escapes;
  a file that is UTF-8 but not JSON is treated as an empty list
  (`Unanswered.SaveUnanswered`).

## Model

| member | source | states |
|---|---|---|
| Matcher.FindBestAnswer | main.py:59-91 | the functional selector: the pass-1 answer if it is a non-empty string, else the pass-2 answer, else the default; characterized by the lemmas below |
| Matcher.EntryScore | main.py:66-69 | an entry with no phrasings has no score; otherwise its score is `extractOne` with cutoff 90 over its phrasings |
| Matcher.RunningScore | main.py:62-73 | the running best score that a new score must strictly exceed, 0 before any entry qualifies |
| Matcher.Consider | main.py:70-74 | one step of pass 1: a qualifying score strictly greater than the running best (0 at first) replaces it with that score and the entry's answer |
| Matcher.Best | main.py:61-74 | the running best of pass 1 over scored entries, starting from 0 and replaced on a strictly greater score; characterized by `BestCharacterization` |
| Matcher.Pass1 | main.py:61-74 | pass 1 over the knowledge base: `Best` of each entry's `extractOne` score; characterized by `Pass1Characterization` |
| Matcher.Pass2 | main.py:80-87 | pass 2: the answer of the first entry with phrasings that has a phrasing whose partial score is at least 90; characterized by `Pass2Characterization` |
| Matcher.ExtractOne | main.py:69 | `extractOne` with a cutoff yields a score exactly when some phrasing reaches the cutoff; that score is reached by some phrasing and is the maximum over all phrasings |
| Matcher.BestCharacterization | main.py:61-74 | the running best (start 0, replace on strictly greater) ends empty iff no entry qualifies, else on the unique entry with the highest score, earliest on ties |
| Matcher.Pass1Characterization | main.py:65-74 | pass 1 finds nothing iff no non-empty entry has a phrasing scoring at least 90, else holds the winner's score and answer |
| Matcher.Pass1SelectsWinner | main.py:65-74 | the entry with the highest qualifying score, earliest on ties, is the one whose answer pass 1 keeps |
| Matcher.WinnerUnique | main.py:72-74 | strict replacement makes the pass-1 winner unique |
| Matcher.Pass2Characterization | main.py:80-87 | pass 2 finds nothing iff no phrasing has a partial score of at least 90, else returns the answer of the entry holding the first such phrasing |
| Matcher.Pass2SelectsFirstHit | main.py:80-87 | pass 2 returns the answer of the first hit in entry-then-phrasing order, even if a later phrasing scores higher |
| Matcher.FirstHitUnique | main.py:84-87 | the first hit in entry-then-phrasing order is unique |
| Matcher.AnswerProvenance | main.py:59-91 | the reply is the default response or the answer of some entry that has phrasings |
| Matcher.AnswerFromPass1 | main.py:72-77 | a pass-1 winner with a non-empty answer is returned whatever pass 2 would find |
| Matcher.EmptyWinnerFallsThrough | main.py:76 | a pass-1 winner whose answer is "" does not settle the reply, so control reaches pass 2 |
| Matcher.AnswerFromPass2 | main.py:76-87 | when pass 1 does not settle the reply, the first partial hit decides it |
| Matcher.DefaultWhenUnmatched | main.py:89-91 | when neither pass settles the reply it is exactly the default response |
| Matcher.NoMatchGivesDefault | main.py:51-91 | if no phrasing reaches 90 under either scorer the reply is exactly the default response |
| Matcher.EmptyEntryNeverSelected | main.py:65-87 | removing an entry with no phrasings never changes the reply, so such an entry is never its source |
| Matcher.RunPass1 | main.py:61-74 | the first loop ends with the running best of pass 1, and with score 0 and no answer when nothing qualified |
| Matcher.FindPartialHit | main.py:84-87 | the inner loop finds a hit iff some phrasing of the entry has a partial score of at least 90 |
| Matcher.RunPass2 | main.py:80-87 | the second loop returns the pass-2 answer, or nothing |
| Matcher.FindBestAnswerLoops | main.py:59-91 | the two loops with the truthiness test and default compute the selector's reply |
| Sessions.Lookup | main.py:127-131 | the state of a session's file, `Missing` when there is none |
| Sessions.History | main.py:98-102 | the turns a chat starts from: the decoded list, [] when the file is absent |
| Sessions.GetSession | main.py:125-131 | get raises exactly when the session file exists but is not UTF-8 JSON; otherwise it returns the history a chat would start from ([] when there is no file) |
| Sessions.Exchange | main.py:109-110 | the two turns one chat appends: the user's message, then the assistant's answer |
| Sessions.Chat | main.py:95-122 | a chat succeeds iff the session file is decodable or absent and the knowledge base loads; then the reply is the selected answer, the session becomes the old history plus the user turn and the assistant turn, and no other session changes; otherwise the reply is the apology and nothing is written |
| Sessions.ChatThenGet | main.py:104-131 | after a successful chat, get returns the earlier history plus exactly the two new turns, and other sessions read as before |
| Sessions.ChatStep | main.py:109-113 | a successful chat leaves a decodable session whose history grew by the message and its answer |
| Sessions.ConversationRoundTrip | main.py:95-131 | after a run of chats, get returns the earlier history followed by each message and its answer, in order |
| Sessions.Reset | main.py:135-139 | reset leaves the session absent, leaves every other session as it was, and answers "deleted" |
| Sessions.ResetThenGet | main.py:125-139 | after a reset, get returns [] whatever state the session file was in |
| Sessions.ResetIdempotent | main.py:135-139 | resetting twice has the same effect and status as resetting once |
| Unanswered.Existing | main.py:34-40 | the list a save starts from: the decoded records, or [] when the file is absent or not JSON |
| Unanswered.SaveUnanswered | main.py:33-43 | saving raises exactly when the log file is not UTF-8; otherwise the log is rewritten as the earlier list, or [] when the file is absent or not JSON, followed by exactly one record for the question |
| Unanswered.GetUnanswered | main.py:183-188 | reading the log raises exactly when the file exists but is not UTF-8 JSON; otherwise it returns the list a save starts from ([] when there is no file) |
| Unanswered.LogRoundTrip | main.py:33-43 | saving a non-empty list of questions raises exactly when the log is not UTF-8; otherwise the log reads back as the earlier records followed by one record per question, in order |
| Feedback.FeedbackRecord | main.py:147-151 | the record a submission writes: the ISO timestamp, the rating and the comment, under those keys |
| Feedback.SubmitFeedback | main.py:142-154 | a submission writes the timestamp, rating and comment record under `sid_stamp.json`, replacing a file of that name, touching no other file, and answers "feedback saved" |
| Feedback.FeedbackFileName | main.py:145 | the file name `sid_stamp.json`; characterized by `FileNameIsJson`, `FileNameInjective` and `ListedSessionId` |
| Feedback.SessionIdOf | main.py:165 | the listed session id of a file: its name with every ".json" removed |
| Feedback.Annotate | main.py:164-166 | one listed record: the file's content with `session_id` set to the name with every ".json" removed |
| Feedback.AllFeedbacks | main.py:157-168 | the listing has one record per listed file, in order; each has session_id set to the name with ".json" removed and otherwise the same keys with the same values |
| Feedback.FileNameIsJson | main.py:145 | a feedback file name always ends in ".json" |
| Feedback.ListedSessionId | main.py:144-165 | for a session id without ".json" and a digit timestamp, the listed session id of the file is `sid_stamp` |
| Feedback.ListedSessionIdDropsInnerJson | main.py:145-165 | a session id holding ".json" loses it in the listing: "a.json" with stamp "1" is listed as "a_1" |
| Feedback.FileNameInjective | main.py:144-145 | with digit timestamps, two submissions share a file only for the same session id and the same timestamp |
| Feedback.SubmitThenList | main.py:142-168 | after a submission under a session id that contains no ".json" and with a digit timestamp, any full listing holds a record with the submitted timestamp, rating and comment, and session_id `sid_stamp` |
| Text.EndsWith | convert_feedback_to_csv.py:14 | `str.endswith`: the last characters of the string are the suffix |
| Json.GetOrEmpty | convert_feedback_to_csv.py:21-23 | `dict.get(key, "")`: the value under the key, or "" when it is absent |
| Text.RemoveAll | main.py:165 | `str.replace(pat, "")` scanning left to right over non-overlapping occurrences; the result is never longer than the input |
| Text.RemoveAllWithoutOccurrence | main.py:165 | removing ".json" from a name that does not contain it leaves the name unchanged |
| Text.RemoveAllDropsTrailing | main.py:165 | a trailing ".json" is dropped and nothing before it changes when no occurrence starts earlier |
| Text.RemoveAllCanLeaveOccurrence | main.py:165 | removing ".json" is not idempotent: ".js.jsonon" becomes ".json" |
| FeedbackCsv.RowOf | convert_feedback_to_csv.py:18-24 | the row of one file: session_id from its name with ".json" removed, and timestamp, rating and comment from its content, "" when absent |
| FeedbackCsv.RowsOfOne | convert_feedback_to_csv.py:14-25 | one listed file gives its row when its name ends in ".json" and nothing otherwise |
| FeedbackCsv.Rows | convert_feedback_to_csv.py:13-25 | the rows the export loop collects, in listing order; characterized by `RowsSelectJsonFiles` |
| FeedbackCsv.WriteRow | convert_feedback_to_csv.py:29-31 | `DictWriter.writerow`: the row's values in header order, "" for a missing key |
| FeedbackCsv.ExportCsv | convert_feedback_to_csv.py:9-31 | the table is the header session_id, timestamp, rating, comment followed by one line per row; each cell is the row's value for the field named by the header cell above it |
| FeedbackCsv.RowsConcat | convert_feedback_to_csv.py:13-25 | the rows of two listings in sequence are the rows of each, in listing order |
| FeedbackCsv.RowsIgnoreOtherFiles | convert_feedback_to_csv.py:13-14 | files whose names do not end in ".json" produce no row |
| FeedbackCsv.RowsOfJsonFiles | convert_feedback_to_csv.py:13-25 | when all names end in ".json" there is exactly one row per file, at the file's position |
| FeedbackCsv.RowsSelectJsonFiles | convert_feedback_to_csv.py:13-25 | for any listing, there is exactly one row per file whose name ends in ".json", in listing order: row k is the row of the k-th such file |
| FeedbackCsv.RowOfEveryJsonFile | convert_feedback_to_csv.py:13-25 | every listed ".json" file has its row among the rows |
| FeedbackCsv.CsvAgreesWithListing | convert_feedback_to_csv.py:13-24 | for any listing, row k equals the `/all-feedbacks` record of the k-th file whose name ends in ".json", projected onto the four header fields, with "" for missing ones |
| FeedbackCsv.SubmitThenExport | convert_feedback_to_csv.py:13-31 | a feedback submitted under a session id that contains no ".json" and with a digit timestamp appears in the export as the line `sid_stamp`, timestamp, rating, comment |

## Left out

- The matching library's scoring algorithms. Both scorers are
  uninterpreted parameters with a 0..100 real range. Which phrasing
  `extractOne` matched is not modelled, since the caller never uses it.
- Loading the knowledge base. It is a parameter, or a `FileState` in
  `Sessions.Chat`, where a load failure gives the apology reply. Entries
  lacking a `questions` or `answer` key are not modelled.
- HTTP routing, request validation, the static HTML pages, and status
  codes other than the chat apology. These are web-framework plumbing.
- File I/O and path building. A session id is used as a map key as it
  is; a session id holding a path separator would address another file in
  the source, and that is not modelled.
- JSON parsing and CSV quoting and encoding. Files are `FileState`
  values and CSV cells are JSON values.
- Exceptions other than reading a file that is not UTF-8 or not JSON are
  not modelled. Examples are permission errors, a non-list JSON value in
  the unanswered log, and a feedback file that is not a JSON object.
- An undecodable feedback file is not modelled; the listings here hold
  decoded files only. In the source such a file aborts `/all-feedbacks`,
  which opens every regular file, and aborts the export only when its
  name ends in ".json": the export checks the suffix before opening a
  file, so it skips an undecodable file with any other name.
- The `os.path.isfile` filter of `/all-feedbacks`. The listing holds
  regular files only.
- `datetime.now()`. The file-name stamp and the ISO timestamp are two
  independent parameters, as the source reads the clock twice.
- Unsynchronised read-modify-write of the files. This is a concurrency
  concern.
- The debug `print` calls.
- `test_openai.py`. It is a network smoke test against an outside
  service.
