/** The feedback store behind `/feedback` and `/all-feedbacks`: one JSON
    file per submission, named after the session id and a second-resolution
    timestamp. */
module Feedback {
  import opened Json
  import opened Text

  const JSON_EXT: string := ".json"

  const STATUS_SAVED: string := "feedback saved"

  /** The feedback directory: file name to decoded JSON object. */
  type FeedbackDir = map<string, JsonObject>

  /** A directory listing in the order the operating system returns it. */
  type Listing = seq<(string, JsonObject)>

  /** `f"{session_id}_{timestamp}.json"`; `stamp` is the `%Y%m%d%H%M%S`
      rendering of the submission time. */
  function FeedbackFileName(sid: string, stamp: string): string
  {
    sid + "_" + stamp + JSON_EXT
  }

  /** The record a submission writes; `isoTime` is the ISO-8601 rendering
      of the submission time. */
  function FeedbackRecord(isoTime: string, rating: int, comment: string): JsonObject
  {
    map["timestamp" := JString(isoTime), "rating" := JInt(rating), "comment" := JString(comment)]
  }

  /** `/feedback`: writes the record under its file name, replacing a file
      of the same name, and touches no other file. */
  function SubmitFeedback(dir: FeedbackDir, sid: string, rating: int, comment: string,
                          stamp: string, isoTime: string): (r: (FeedbackDir, string))
    ensures r.0.Keys == dir.Keys + {FeedbackFileName(sid, stamp)}
    ensures r.0[FeedbackFileName(sid, stamp)] == FeedbackRecord(isoTime, rating, comment)
    ensures forall name :: name in dir && name != FeedbackFileName(sid, stamp) ==> r.0[name] == dir[name]
    ensures r.1 == STATUS_SAVED
  {
    (dir[FeedbackFileName(sid, stamp) := FeedbackRecord(isoTime, rating, comment)], STATUS_SAVED)
  }

  /** `filename.replace(".json", "")` */
  function SessionIdOf(filename: string): string
  {
    RemoveAll(filename, JSON_EXT)
  }

  /** One record of the listing: the content with `session_id` set. */
  function Annotate(filename: string, content: JsonObject): JsonObject
  {
    content["session_id" := JString(SessionIdOf(filename))]
  }

  /** `/all-feedbacks`: every listed file, in listing order, annotated with
      the session id taken from its name; nothing else in a record changes. */
  function AllFeedbacks(listing: Listing): (r: seq<JsonObject>)
    ensures |r| == |listing|
    ensures forall i :: 0 <= i < |listing| ==>
      "session_id" in r[i] && r[i]["session_id"] == JString(RemoveAll(listing[i].0, JSON_EXT))
    // What `.get(key, "")` reads back; a corollary of the map equality below.
    ensures forall i, key :: 0 <= i < |listing| && key != "session_id" ==>
      GetOrEmpty(r[i], key) == GetOrEmpty(listing[i].1, key)
    ensures forall i :: 0 <= i < |listing| ==> r[i] - {"session_id"} == listing[i].1 - {"session_id"}
  {
    seq(|listing|, i requires 0 <= i < |listing| => Annotate(listing[i].0, listing[i].1))
  }

  /** A file name written by a submission ends in ".json". */
  lemma FileNameIsJson(sid: string, stamp: string)
    ensures EndsWith(FeedbackFileName(sid, stamp), JSON_EXT)
  {
    var name := FeedbackFileName(sid, stamp);
    assert name[|name| - |JSON_EXT|..] == JSON_EXT;
  }

  /** The listed session id of a submitted record is `sid_stamp`, not the
      bare session id, as long as the session id holds no ".json". */
  lemma ListedSessionId(sid: string, stamp: string)
    requires !Contains(sid, JSON_EXT)
    requires IsDigits(stamp)
    ensures SessionIdOf(FeedbackFileName(sid, stamp)) == sid + "_" + stamp
  {
    var pat := JSON_EXT;
    var y := sid + "_" + stamp;
    var s := y + pat;
    var n := |sid|;
    assert s == FeedbackFileName(sid, stamp);
    assert s[n] == '_';
    assert forall t :: 0 <= t < |stamp| ==> s[n + 1 + t] == stamp[t];
    forall k: nat | k < |y|
      ensures !OccursAt(s, pat, k)
    {
      if k + |pat| <= |s| {
        if k + |pat| <= n {
          assert s[k..k + |pat|] == sid[k..k + |pat|];
          assert !OccursAt(sid, pat, k);
        } else if k <= n {
          assert s[k..k + |pat|][n - k] == '_';
        } else {
          assert s[k] == stamp[k - n - 1];
          assert s[k..k + |pat|][0] != pat[0];
        }
      }
    }
    RemoveAllDropsTrailing(y, pat);
  }

  /** Without the side condition the listed id can differ from `sid_stamp`:
      a ".json" inside the session id is removed as well. */
  lemma ListedSessionIdDropsInnerJson()
    ensures SessionIdOf(FeedbackFileName("a.json", "1")) == "a_1"
  {
    assert FeedbackFileName("a.json", "1") == "a.json_1.json";
    assert RemoveAll(".json", JSON_EXT) == "";
    assert RemoveAll("1.json", JSON_EXT) == "1";
    assert RemoveAll("_1.json", JSON_EXT) == "_1";
    assert RemoveAll(".json_1.json", JSON_EXT) == "_1";
    assert "a.json_1.json"[..|JSON_EXT|] != JSON_EXT;
  }

  /** Two submissions write the same file only for the same session id and
      the same timestamp. */
  lemma FileNameInjective(sid1: string, stamp1: string, sid2: string, stamp2: string)
    requires IsDigits(stamp1) && IsDigits(stamp2)
    requires FeedbackFileName(sid1, stamp1) == FeedbackFileName(sid2, stamp2)
    ensures sid1 == sid2 && stamp1 == stamp2
  {
    var x1 := sid1 + "_" + stamp1;
    var x2 := sid2 + "_" + stamp2;
    assert x1 == FeedbackFileName(sid1, stamp1)[..|x1|];
    assert x2 == FeedbackFileName(sid2, stamp2)[..|x2|];
    assert |x1| == |x2|;
    assert x1 == x2;
    assert x1[|sid1|] == '_' && x2[|sid2|] == '_';
    assert forall t :: 0 <= t < |stamp1| ==> x1[|sid1| + 1 + t] == stamp1[t];
    assert forall t :: 0 <= t < |stamp2| ==> x2[|sid2| + 1 + t] == stamp2[t];
    if |sid1| < |sid2| {
      assert false;
    } else if |sid2| < |sid1| {
      assert false;
    }
    assert sid1 == x1[..|sid1|] && sid2 == x2[..|sid2|];
    assert stamp1 == x1[|sid1| + 1..] && stamp2 == x2[|sid2| + 1..];
  }

  /** The listing enumerates the directory: every listed name is a file of
      it with its content, and every file is listed. */
  ghost predicate Enumerates(listing: Listing, dir: FeedbackDir)
  {
    && (forall i :: 0 <= i < |listing| ==> listing[i].0 in dir && listing[i].1 == dir[listing[i].0])
    && (forall name :: name in dir ==> exists i :: 0 <= i < |listing| && listing[i].0 == name)
  }

  /** Feedback round trip: after a submission, the listing holds a record
      with the submitted timestamp, rating and comment, annotated with
      `sid_stamp` as its session id. */
  lemma SubmitThenList(dir: FeedbackDir, sid: string, rating: int, comment: string,
                       stamp: string, isoTime: string, listing: Listing)
    requires !Contains(sid, JSON_EXT) && IsDigits(stamp)
    requires Enumerates(listing, SubmitFeedback(dir, sid, rating, comment, stamp, isoTime).0)
    ensures exists i ::
              && 0 <= i < |listing|
              && AllFeedbacks(listing)[i] == map["timestamp" := JString(isoTime), "rating" := JInt(rating),
                                                 "comment" := JString(comment), "session_id" := JString(sid + "_" + stamp)]
  {
    var after := SubmitFeedback(dir, sid, rating, comment, stamp, isoTime).0;
    var name := FeedbackFileName(sid, stamp);
    assert name in after;
    var i :| 0 <= i < |listing| && listing[i].0 == name;
    ListedSessionId(sid, stamp);
    assert AllFeedbacks(listing)[i] == Annotate(name, FeedbackRecord(isoTime, rating, comment));
  }
}
