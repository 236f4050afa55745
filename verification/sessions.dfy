/** The per-session conversation store behind `/chat`, `/get-session` and
    `/reset-session`: one JSON file per session id, each holding the list
    of turns. */
module Sessions {
  import opened Base
  import Matcher

  datatype Role = User | Assistant

  /** `{"role": ..., "content": ...}` */
  datatype Turn = Turn(role: Role, content: string)

  /** The sessions directory, keyed by session id; an id with no file maps
      to nothing (or, equivalently, to `Missing`). */
  type SessionDir = map<string, FileState<seq<Turn>>>

  const INTERNAL_ERROR_REPLY: string :=
    "حدث خطأ داخلي أثناء المعالجة. سيتم تحويل سؤالك إلى الفريق المختص."

  const STATUS_DELETED: string := "deleted"

  /** The body of a `/chat` reply: the answer, or the fixed apology sent
      with status 500 when any step raises. */
  datatype ChatReply = Reply(response: string) | InternalError(response: string)

  function Lookup(dir: SessionDir, sid: string): FileState<seq<Turn>>
  {
    if sid in dir then dir[sid] else Missing
  }

  /** `/get-session/{sid}`: the stored turns, `[]` when there is no file; a
      file that cannot be read as JSON raises. */
  function GetSession(dir: SessionDir, sid: string): (r: Outcome<seq<Turn>>)
    ensures r.ServerError? <==> Lookup(dir, sid).Raises()
    ensures r.Ok? ==> r.value == History(dir, sid)
  {
    match Lookup(dir, sid)
    case Missing => Ok([])
    case NotUtf8 => ServerError
    case Undecodable => ServerError
    case Decoded(turns) => Ok(turns)
  }

  /** The turns of a session a chat call starts from: none when there is no
      file. */
  function History(dir: SessionDir, sid: string): seq<Turn>
  {
    if Lookup(dir, sid).Decoded? then Lookup(dir, sid).contents else []
  }

  /** The two turns one exchange adds. */
  function Exchange(message: string, answer: string): seq<Turn>
  {
    [Turn(User, message), Turn(Assistant, answer)]
  }

  /** `/chat`: load the session (raises on a file that is not UTF-8 JSON), then load
      the knowledge base and select an answer (raises when the knowledge
      base cannot be loaded), and only then write the session back with the
      two new turns appended. Any raise yields the apology and writes
      nothing. */
  function Chat(dir: SessionDir, sid: string, message: string, kb: FileState<Matcher.KnowledgeBase>,
                full: Matcher.Scorer, partial: Matcher.Scorer): (r: (SessionDir, ChatReply))
    ensures r.1.Reply? <==> !Lookup(dir, sid).Raises() && kb.Decoded?
    ensures r.1.InternalError? ==> r.0 == dir && r.1.response == INTERNAL_ERROR_REPLY
    ensures r.1.Reply? ==> r.1.response == Matcher.FindBestAnswer(message, kb.contents, full, partial)
    ensures r.1.Reply? ==> Lookup(r.0, sid) == Decoded(History(dir, sid) + Exchange(message, r.1.response))
    ensures forall other :: other != sid ==> Lookup(r.0, other) == Lookup(dir, other)
  {
    if Lookup(dir, sid).Raises() || !kb.Decoded? then (dir, InternalError(INTERNAL_ERROR_REPLY))
    else
      var answer := Matcher.FindBestAnswer(message, kb.contents, full, partial);
      (dir[sid := Decoded(History(dir, sid) + Exchange(message, answer))], Reply(answer))
  }

  /** `/reset-session/{sid}`: remove the file if there is one. */
  function Reset(dir: SessionDir, sid: string): (r: (SessionDir, string))
    ensures Lookup(r.0, sid) == Missing
    ensures forall other :: other != sid ==> Lookup(r.0, other) == Lookup(dir, other)
    ensures r.1 == STATUS_DELETED
  {
    (dir - {sid}, STATUS_DELETED)
  }

  /** A successful chat appends exactly its two turns to what get returns,
      and leaves every other session as it was. */
  lemma ChatThenGet(dir: SessionDir, sid: string, message: string, kb: Matcher.KnowledgeBase,
                    full: Matcher.Scorer, partial: Matcher.Scorer, other: string)
    requires !Lookup(dir, sid).Raises()
    ensures var after := Chat(dir, sid, message, Decoded(kb), full, partial).0;
      && GetSession(dir, sid) == Ok(History(dir, sid))
      && GetSession(after, sid) == Ok(History(dir, sid)
           + [Turn(User, message), Turn(Assistant, Matcher.FindBestAnswer(message, kb, full, partial))])
      && (other != sid ==> GetSession(after, other) == GetSession(dir, other))
  {
  }

  /** Chat calls on one session, in order. */
  function ChatAll(dir: SessionDir, sid: string, messages: seq<string>, kb: FileState<Matcher.KnowledgeBase>,
                   full: Matcher.Scorer, partial: Matcher.Scorer): SessionDir
    decreases |messages|
  {
    if |messages| == 0 then dir
    else ChatAll(Chat(dir, sid, messages[0], kb, full, partial).0, sid, messages[1..], kb, full, partial)
  }

  /** The conversation a list of messages produces: each message followed
      by the answer selected for it. */
  function Transcript(messages: seq<string>, kb: Matcher.KnowledgeBase,
                      full: Matcher.Scorer, partial: Matcher.Scorer): seq<Turn>
    decreases |messages|
  {
    if |messages| == 0 then []
    else Exchange(messages[0], Matcher.FindBestAnswer(messages[0], kb, full, partial))
         + Transcript(messages[1..], kb, full, partial)
  }

  /** One successful chat in terms of the history it leaves. */
  lemma ChatStep(dir: SessionDir, sid: string, message: string, kb: Matcher.KnowledgeBase,
                 full: Matcher.Scorer, partial: Matcher.Scorer)
    requires !Lookup(dir, sid).Raises()
    ensures var next := Chat(dir, sid, message, Decoded(kb), full, partial).0;
      && Lookup(next, sid).Decoded?
      && History(next, sid) == History(dir, sid) + Exchange(message, Matcher.FindBestAnswer(message, kb, full, partial))
  {
  }

  /** Session round trip: after a run of chats, get returns the earlier
      history followed by every message and its answer, in order. */
  lemma {:induction false} ConversationRoundTrip(dir: SessionDir, sid: string, messages: seq<string>,
                                                 kb: Matcher.KnowledgeBase, full: Matcher.Scorer, partial: Matcher.Scorer)
    requires !Lookup(dir, sid).Raises()
    ensures GetSession(ChatAll(dir, sid, messages, Decoded(kb), full, partial), sid)
      == Ok(History(dir, sid) + Transcript(messages, kb, full, partial))
    decreases |messages|
  {
    if |messages| == 0 {
      assert History(dir, sid) + [] == History(dir, sid);
    } else {
      var next := Chat(dir, sid, messages[0], Decoded(kb), full, partial).0;
      ChatStep(dir, sid, messages[0], kb, full, partial);
      ConversationRoundTrip(next, sid, messages[1..], kb, full, partial);
      TranscriptSplit(History(dir, sid), messages, kb, full, partial);
    }
  }

  lemma TranscriptSplit(prior: seq<Turn>, messages: seq<string>, kb: Matcher.KnowledgeBase,
                        full: Matcher.Scorer, partial: Matcher.Scorer)
    requires |messages| > 0
    ensures prior + Exchange(messages[0], Matcher.FindBestAnswer(messages[0], kb, full, partial))
              + Transcript(messages[1..], kb, full, partial)
            == prior + Transcript(messages, kb, full, partial)
  {
    var head := Exchange(messages[0], Matcher.FindBestAnswer(messages[0], kb, full, partial));
    var rest := Transcript(messages[1..], kb, full, partial);
    assert Transcript(messages, kb, full, partial) == head + rest;
    assert prior + head + rest == prior + (head + rest);
  }

  /** After a reset, get returns `[]`, whatever state the file was in. */
  lemma ResetThenGet(dir: SessionDir, sid: string)
    ensures GetSession(Reset(dir, sid).0, sid) == Ok([])
  {
  }

  /** Resetting twice is resetting once, and both report "deleted". */
  lemma ResetIdempotent(dir: SessionDir, sid: string)
    ensures Reset(Reset(dir, sid).0, sid) == Reset(dir, sid)
  {
    assert dir - {sid} - {sid} == dir - {sid};
  }
}
