/** The offline export that flattens the feedback directory into a CSV
    table under a fixed header. Cells are JSON values; quoting and text
    encoding of the written file are not modelled. */
module FeedbackCsv {
  import opened Json
  import opened Text
  import Feedback

  const FIELDS: seq<string> := ["session_id", "timestamp", "rating", "comment"]

  /** One row as the export builds it: a dict keyed by field name. */
  type CsvRow = map<string, JsonValue>

  /** The row of one feedback file: the session id from its name, and three
      fields copied from its content, each `""` when absent. */
  function RowOf(filename: string, data: JsonObject): CsvRow
  {
    map["session_id" := JString(Feedback.SessionIdOf(filename)),
        "timestamp" := GetOrEmpty(data, "timestamp"),
        "rating" := GetOrEmpty(data, "rating"),
        "comment" := GetOrEmpty(data, "comment")]
  }

  /** The row of a listed file, if its name ends in ".json". */
  function RowsOfOne(filename: string, data: JsonObject): seq<CsvRow>
  {
    if EndsWith(filename, Feedback.JSON_EXT) then [RowOf(filename, data)] else []
  }

  /** The rows collected by the export loop, in listing order. */
  function Rows(listing: Feedback.Listing): seq<CsvRow>
    decreases |listing|
  {
    if |listing| == 0 then []
    else RowsOfOne(listing[0].0, listing[0].1) + Rows(listing[1..])
  }

  /** `DictWriter.writerow`: the row's values in header order, `""` for a
      missing key. */
  function WriteRow(row: CsvRow): seq<JsonValue>
  {
    seq(|FIELDS|, c requires 0 <= c < |FIELDS| => GetOrEmpty(row, FIELDS[c]))
  }

  /** The written table: the header line, then one line per row. */
  function ExportCsv(listing: Feedback.Listing): (table: seq<seq<JsonValue>>)
    ensures |table| == |Rows(listing)| + 1
    ensures table[0] == [JString("session_id"), JString("timestamp"), JString("rating"), JString("comment")]
    ensures forall k, c :: 0 <= k < |Rows(listing)| && 0 <= c < |table[0]| ==>
      |table[k + 1]| == |table[0]| && table[k + 1][c] == GetOrEmpty(Rows(listing)[k], table[0][c].str)
  {
    var rows := Rows(listing);
    [seq(|FIELDS|, c requires 0 <= c < |FIELDS| => JString(FIELDS[c]))]
      + seq(|rows|, k requires 0 <= k < |rows| => WriteRow(rows[k]))
  }

  /** The export is compositional: the rows of two listings one after the
      other are the rows of each, in order. */
  lemma {:induction false} RowsConcat(a: Feedback.Listing, b: Feedback.Listing)
    ensures Rows(a + b) == Rows(a) + Rows(b)
    decreases |a|
  {
    if |a| == 0 {
      assert a + b == b;
    } else {
      var ab := a + b;
      assert ab[0] == a[0] && ab[1..] == a[1..] + b;
      var first := RowsOfOne(a[0].0, a[0].1);
      assert Rows(ab) == first + Rows(a[1..] + b);
      RowsConcat(a[1..], b);
      assert Rows(a) == first + Rows(a[1..]);
      assert first + (Rows(a[1..]) + Rows(b)) == (first + Rows(a[1..])) + Rows(b);
    }
  }

  /** Files whose names do not end in ".json" produce no row. */
  lemma {:induction false} RowsIgnoreOtherFiles(listing: Feedback.Listing)
    requires forall i :: 0 <= i < |listing| ==> !EndsWith(listing[i].0, Feedback.JSON_EXT)
    ensures Rows(listing) == []
    decreases |listing|
  {
    if |listing| > 0 {
      RowsIgnoreOtherFiles(listing[1..]);
    }
  }

  /** When every listed name ends in ".json" there is exactly one row per
      file, at the file's position. */
  lemma {:induction false} RowsOfJsonFiles(listing: Feedback.Listing)
    requires forall i :: 0 <= i < |listing| ==> EndsWith(listing[i].0, Feedback.JSON_EXT)
    ensures |Rows(listing)| == |listing|
    ensures forall k :: 0 <= k < |listing| ==> Rows(listing)[k] == RowOf(listing[k].0, listing[k].1)
    decreases |listing|
  {
    if |listing| > 0 {
      RowsOfJsonFiles(listing[1..]);
    }
  }

  /** A listed name ends in ".json". */
  predicate IsJsonFile(listing: Feedback.Listing, i: int)
    requires 0 <= i < |listing|
  {
    EndsWith(listing[i].0, Feedback.JSON_EXT)
  }

  ghost predicate AtJsonFiles(listing: Feedback.Listing, ps: seq<int>)
  {
    forall k :: 0 <= k < |ps| ==> 0 <= ps[k] < |listing| && IsJsonFile(listing, ps[k])
  }

  ghost predicate Increasing(ps: seq<int>)
  {
    forall k, l :: 0 <= k < l < |ps| ==> ps[k] < ps[l]
  }

  ghost predicate CoversJsonFiles(listing: Feedback.Listing, ps: seq<int>)
  {
    forall i :: 0 <= i < |listing| && IsJsonFile(listing, i) ==> i in ps
  }

  /** `ps` lists, in increasing order, exactly the positions of the listing
      whose names end in ".json". */
  ghost predicate JsonPositions(listing: Feedback.Listing, ps: seq<int>)
  {
    AtJsonFiles(listing, ps) && Increasing(ps) && CoversJsonFiles(listing, ps)
  }

  /** Positions in a listing's tail, as positions in the whole listing. */
  function Shift(qs: seq<int>): (ps: seq<int>)
    ensures |ps| == |qs|
    ensures forall k :: 0 <= k < |qs| ==> ps[k] == qs[k] + 1
  {
    seq(|qs|, k requires 0 <= k < |qs| => qs[k] + 1)
  }

  /** The head position, if the head is a ".json" file. */
  function HeadPosition(listing: Feedback.Listing): seq<int>
    requires |listing| > 0
  {
    if IsJsonFile(listing, 0) then [0] else []
  }

  /** Prepending a file: each part of `JsonPositions`, and `RowsAt`, carries
      over from the tail's positions to `HeadPosition + Shift`. */
  lemma AtJsonFilesCons(listing: Feedback.Listing, qs: seq<int>)
    requires |listing| > 0 && AtJsonFiles(listing[1..], qs)
    ensures AtJsonFiles(listing, HeadPosition(listing) + Shift(qs))
  {
  }

  lemma IncreasingCons(listing: Feedback.Listing, qs: seq<int>)
    requires |listing| > 0 && AtJsonFiles(listing[1..], qs) && Increasing(qs)
    ensures Increasing(HeadPosition(listing) + Shift(qs))
  {
  }

  lemma CoversJsonFilesCons(listing: Feedback.Listing, qs: seq<int>)
    requires |listing| > 0 && CoversJsonFiles(listing[1..], qs)
    ensures CoversJsonFiles(listing, HeadPosition(listing) + Shift(qs))
  {
    var tail := listing[1..];
    var ps := HeadPosition(listing) + Shift(qs);
    var h := |HeadPosition(listing)|;
    forall i | 0 <= i < |listing| && IsJsonFile(listing, i)
      ensures i in ps
    {
      if i > 0 {
        assert listing[i] == tail[i - 1];
        assert IsJsonFile(tail, i - 1);
        var k :| 0 <= k < |qs| && qs[k] == i - 1;
        assert ps[h + k] == i;
      }
    }
  }

  /** Row `k` is the row of the file at position `ps[k]`, and there are
      no other rows. */
  ghost predicate RowsAt(listing: Feedback.Listing, ps: seq<int>)
  {
    && |Rows(listing)| == |ps|
    && forall k :: 0 <= k < |ps| ==> 0 <= ps[k] < |listing| && Rows(listing)[k] == RowOf(listing[ps[k]].0, listing[ps[k]].1)
  }

  lemma RowsAtCons(listing: Feedback.Listing, qs: seq<int>)
    requires |listing| > 0 && RowsAt(listing[1..], qs)
    ensures RowsAt(listing, HeadPosition(listing) + Shift(qs))
  {
  }

  /** For any listing, the rows are exactly one per ".json" file, in
      listing order: row `k` belongs to the `k`-th such file, and there are
      as many rows as such files. */
  lemma RowsSelectJsonFiles(listing: Feedback.Listing) returns (ps: seq<int>)
    ensures JsonPositions(listing, ps)
    ensures |Rows(listing)| == |ps|
    ensures forall k :: 0 <= k < |ps| ==> Rows(listing)[k] == RowOf(listing[ps[k]].0, listing[ps[k]].1)
  {
    ps := JsonRowPositions(listing);
  }

  /** The induction behind `RowsSelectJsonFiles`. */
  lemma {:induction false} JsonRowPositions(listing: Feedback.Listing) returns (ps: seq<int>)
    ensures JsonPositions(listing, ps) && RowsAt(listing, ps)
    decreases |listing|
  {
    if |listing| == 0 {
      ps := [];
    } else {
      var qs := JsonRowPositions(listing[1..]);
      AtJsonFilesCons(listing, qs);
      IncreasingCons(listing, qs);
      CoversJsonFilesCons(listing, qs);
      RowsAtCons(listing, qs);
      ps := HeadPosition(listing) + Shift(qs);
    }
  }

  /** For any listing, row `k` is the `/all-feedbacks` record of the
      `k`-th ".json" file projected onto the header fields. */
  lemma CsvAgreesWithListing(listing: Feedback.Listing) returns (ps: seq<int>)
    ensures JsonPositions(listing, ps)
    ensures |Rows(listing)| == |ps|
    ensures forall k, c :: 0 <= k < |ps| && 0 <= c < |FIELDS| ==>
      GetOrEmpty(Rows(listing)[k], FIELDS[c]) == GetOrEmpty(Feedback.AllFeedbacks(listing)[ps[k]], FIELDS[c])
  {
    ps := RowsSelectJsonFiles(listing);
  }

  /** Every listed ".json" file has its row in the export. */
  lemma RowOfEveryJsonFile(listing: Feedback.Listing, i: int)
    requires 0 <= i < |listing| && EndsWith(listing[i].0, Feedback.JSON_EXT)
    ensures exists k :: 0 <= k < |Rows(listing)| && Rows(listing)[k] == RowOf(listing[i].0, listing[i].1)
  {
    assert listing == listing[..i] + [listing[i]] + listing[i + 1..];
    RowsConcat(listing[..i] + [listing[i]], listing[i + 1..]);
    RowsConcat(listing[..i], [listing[i]]);
    assert Rows([listing[i]]) == [RowOf(listing[i].0, listing[i].1)];
    assert Rows(listing)[|Rows(listing[..i])|] == RowOf(listing[i].0, listing[i].1);
  }

  /** A submitted feedback reaches the export as the line
      `sid_stamp, timestamp, rating, comment`. */
  lemma SubmitThenExport(dir: Feedback.FeedbackDir, sid: string, rating: int, comment: string,
                         stamp: string, isoTime: string, listing: Feedback.Listing)
    requires !Contains(sid, Feedback.JSON_EXT) && IsDigits(stamp)
    requires Feedback.Enumerates(listing, Feedback.SubmitFeedback(dir, sid, rating, comment, stamp, isoTime).0)
    ensures exists k ::
              && 0 <= k < |ExportCsv(listing)|
              && ExportCsv(listing)[k] == [JString(sid + "_" + stamp), JString(isoTime), JInt(rating), JString(comment)]
  {
    var name := Feedback.FeedbackFileName(sid, stamp);
    var after := Feedback.SubmitFeedback(dir, sid, rating, comment, stamp, isoTime).0;
    assert name in after;
    var i :| 0 <= i < |listing| && listing[i].0 == name;
    Feedback.FileNameIsJson(sid, stamp);
    Feedback.ListedSessionId(sid, stamp);
    RowOfEveryJsonFile(listing, i);
    var k :| 0 <= k < |Rows(listing)| && Rows(listing)[k] == RowOf(name, listing[i].1);
    SubmittedLine(sid, rating, comment, stamp, isoTime);
    ExportLine(listing, k);
  }

  /** The line the export writes for row `k`. */
  lemma ExportLine(listing: Feedback.Listing, k: int)
    requires 0 <= k < |Rows(listing)|
    ensures ExportCsv(listing)[k + 1] == WriteRow(Rows(listing)[k])
  {
  }

  /** The line of a submitted record. */
  lemma SubmittedLine(sid: string, rating: int, comment: string, stamp: string, isoTime: string)
    requires !Contains(sid, Feedback.JSON_EXT) && IsDigits(stamp)
    ensures WriteRow(RowOf(Feedback.FeedbackFileName(sid, stamp), Feedback.FeedbackRecord(isoTime, rating, comment)))
      == [JString(sid + "_" + stamp), JString(isoTime), JInt(rating), JString(comment)]
  {
    Feedback.ListedSessionId(sid, stamp);
  }
}
