/** The two-pass answer selector of the chat responder. The two fuzzy
    scorers of the matching library are parameters: `full` stands for the
    default scorer of `process.extractOne`, `partial` for
    `fuzz.partial_ratio`. */
module Matcher {
  import opened Base

  /** A similarity score on the library's 0..100 scale. */
  type Score = x: real | 0.0 <= x <= 100.0

  type Scorer = (string, string) -> Score

  /** Both passes accept a score of at least 90. */
  const THRESHOLD: real := 90.0

  /** One knowledge-base group: accepted phrasings and the canned answer. */
  datatype Entry = Entry(questions: seq<string>, answer: string)

  type KnowledgeBase = seq<Entry>

  const DEFAULT_RESPONSE: string :=
    "عذرًا، لم أتمكن من تحديد استفسارك بدقة. "
    + "للتواصل مع الفريق المختص، يُرجى مراسلتنا عبر البريد: info@jec.sa.com "
    + "أو من خلال نموذج التواصل على موقعنا."

  /** `process.extractOne(query, choices, score_cutoff=cutoff)`, reduced to
      the score the caller reads: the best score among the choices when it
      reaches the cutoff, and nothing otherwise. */
  function ExtractOne(query: string, choices: seq<string>, scorer: Scorer, cutoff: real): (r: Option<Score>)
    ensures r.Some? <==> exists i :: 0 <= i < |choices| && scorer(query, choices[i]) >= cutoff
    ensures r.Some? ==> r.value >= cutoff
    ensures r.Some? ==> exists i :: 0 <= i < |choices| && scorer(query, choices[i]) == r.value
    ensures r.Some? ==> forall i :: 0 <= i < |choices| ==> scorer(query, choices[i]) <= r.value
    decreases |choices|
  {
    if |choices| == 0 then None
    else
      var s := scorer(query, choices[0]);
      var rest := ExtractOne(query, choices[1..], scorer, cutoff);
      assert forall i :: 1 <= i < |choices| ==> choices[i] == choices[1..][i - 1];
      if s >= cutoff && (rest.None? || s >= rest.value) then Some(s) else rest
  }

  // ---------------------------------------------------------------------
  // Pass 1: global best full-phrase match

  /** The score pass 1 gives an entry: the best phrasing score if it
      reaches the threshold; entries without phrasings are skipped. */
  function EntryScore(query: string, e: Entry, full: Scorer): Option<Score>
  {
    if |e.questions| == 0 then None else ExtractOne(query, e.questions, full, THRESHOLD)
  }

  /** An entry as pass 1 sees it: its score, if it qualifies, and its
      answer. */
  datatype Scored = Scored(score: Option<Score>, answer: string)

  function ScoreEntries(query: string, kb: KnowledgeBase, full: Scorer): seq<Scored>
  {
    seq(|kb|, i requires 0 <= i < |kb| => Scored(EntryScore(query, kb[i], full), kb[i].answer))
  }

  /** The running best of pass 1: its score and the answer it would give. */
  datatype Candidate = Candidate(score: Score, answer: string)

  /** The running best score, which starts at 0. */
  function RunningScore(best: Option<Candidate>): real
  {
    if best.Some? then best.value.score else 0.0
  }

  /** One loop step of pass 1: a scored entry replaces the running best
      only when its score is strictly greater. */
  function Consider(best: Option<Candidate>, scored: Option<Score>, answer: string): Option<Candidate>
  {
    if scored.Some? && scored.value > RunningScore(best) then Some(Candidate(scored.value, answer))
    else best
  }

  /** The running best after scanning all of `items`. */
  function Best(items: seq<Scored>): Option<Candidate>
    decreases |items|
  {
    if |items| == 0 then None
    else Consider(Best(items[..|items| - 1]), items[|items| - 1].score, items[|items| - 1].answer)
  }

  /** The state pass 1 ends in. */
  function Pass1(query: string, kb: KnowledgeBase, full: Scorer): Option<Candidate>
  {
    Best(ScoreEntries(query, kb, full))
  }

  /** Item `i` scores at least as high as every qualifying item and
      strictly higher than every qualifying item before it. */
  ghost predicate WinsAt(items: seq<Scored>, i: int)
  {
    && 0 <= i < |items|
    && items[i].score.Some?
    && (forall j :: 0 <= j < i && items[j].score.Some? ==> items[j].score.value < items[i].score.value)
    && (forall j :: i < j < |items| && items[j].score.Some? ==> items[j].score.value <= items[i].score.value)
  }

  ghost predicate NoneQualifies(items: seq<Scored>)
  {
    forall i :: 0 <= i < |items| ==> items[i].score.None?
  }

  ghost predicate ScoresPositive(items: seq<Scored>)
  {
    forall i :: 0 <= i < |items| && items[i].score.Some? ==> items[i].score.value > 0.0
  }

  lemma BestSnoc(items: seq<Scored>, x: Scored)
    ensures Best(items + [x]) == Consider(Best(items), x.score, x.answer)
  {
    assert (items + [x])[..|items|] == items;
  }

  /** A winner of the prefix stays the winner when the last item does not
      beat it. */
  lemma WinnerKept(items: seq<Scored>, x: Scored, i: int)
    requires WinsAt(items, i)
    requires x.score.None? || x.score.value <= items[i].score.value
    ensures WinsAt(items + [x], i)
  {
    var items' := items + [x];
    assert forall j :: 0 <= j < |items| ==> items'[j] == items[j];
    assert items'[|items|] == x;
  }

  /** The last item wins when it beats every qualifying item before it. */
  lemma LastWins(items: seq<Scored>, x: Scored)
    requires x.score.Some?
    requires forall j :: 0 <= j < |items| && items[j].score.Some? ==> items[j].score.value < x.score.value
    ensures WinsAt(items + [x], |items|)
  {
    var items' := items + [x];
    assert forall j :: 0 <= j < |items| ==> items'[j] == items[j];
  }

  lemma NoneQualifiesSnoc(items: seq<Scored>, x: Scored)
    ensures NoneQualifies(items + [x]) <==> NoneQualifies(items) && x.score.None?
  {
    var items' := items + [x];
    assert items'[|items|] == x;
    assert forall j :: 0 <= j < |items| ==> items'[j] == items[j];
  }

  /** The running best ends empty exactly when nothing qualifies, and
      otherwise holds the winner: the highest score, the earliest item on a
      tie. */
  lemma {:induction false} BestCharacterization(items: seq<Scored>) returns (w: int)
    requires ScoresPositive(items)
    ensures Best(items).None? <==> NoneQualifies(items)
    ensures Best(items).Some? ==> WinsAt(items, w) && Best(items).value == Candidate(items[w].score.value, items[w].answer)
    decreases |items|
  {
    if |items| == 0 {
      return 0;
    }
    var prefix := items[..|items| - 1];
    var x := items[|items| - 1];
    assert items == prefix + [x];
    assert forall j :: 0 <= j < |prefix| ==> prefix[j] == items[j];
    BestSnoc(prefix, x);
    var i := BestCharacterization(prefix);
    NoneQualifiesSnoc(prefix, x);
    var prev := Best(prefix);
    w := i;
    if prev.Some? {
      if x.score.Some? && x.score.value > prefix[i].score.value {
        LastWins(prefix, x);
        assert items[|prefix|] == x;
        w := |prefix|;
      } else {
        WinnerKept(prefix, x, i);
        assert items[i] == prefix[i];
      }
    } else if x.score.Some? {
      assert x.score.value > 0.0;
      LastWins(prefix, x);
      assert items[|prefix|] == x;
      w := |prefix|;
    }
  }

  /** At most one item is the winner. */
  lemma WinnerUnique(items: seq<Scored>, i: int, j: int)
    requires WinsAt(items, i) && WinsAt(items, j)
    ensures i == j
  {
  }

  /** Entry `i` of the knowledge base wins pass 1. */
  ghost predicate IsWinner(query: string, kb: KnowledgeBase, full: Scorer, i: int)
  {
    WinsAt(ScoreEntries(query, kb, full), i)
  }

  ghost predicate NoFullMatch(query: string, kb: KnowledgeBase, full: Scorer)
  {
    forall i :: 0 <= i < |kb| ==> EntryScore(query, kb[i], full).None?
  }

  lemma ScoreEntriesPositive(query: string, kb: KnowledgeBase, full: Scorer)
    ensures ScoresPositive(ScoreEntries(query, kb, full))
  {
  }

  /** Pass 1 finds nothing exactly when no entry has a phrasing scoring at
      least 90; otherwise it holds the score and answer of the unique
      winner. */
  lemma {:induction false} Pass1Characterization(query: string, kb: KnowledgeBase, full: Scorer) returns (w: int)
    ensures Pass1(query, kb, full).None? <==> NoFullMatch(query, kb, full)
    ensures Pass1(query, kb, full).Some? ==>
      && IsWinner(query, kb, full, w)
      && Pass1(query, kb, full).value == Candidate(EntryScore(query, kb[w], full).value, kb[w].answer)
  {
    var items := ScoreEntries(query, kb, full);
    ScoreEntriesPositive(query, kb, full);
    w := BestCharacterization(items);
    assert forall i :: 0 <= i < |kb| ==> items[i].score == EntryScore(query, kb[i], full);
  }

  /** Pass 1 ends on the winner's score and answer. */
  lemma Pass1SelectsWinner(query: string, kb: KnowledgeBase, full: Scorer, i: int)
    requires IsWinner(query, kb, full, i)
    ensures Pass1(query, kb, full) == Some(Candidate(EntryScore(query, kb[i], full).value, kb[i].answer))
  {
    var items := ScoreEntries(query, kb, full);
    ScoreEntriesPositive(query, kb, full);
    var w := BestCharacterization(items);
    WinnerUnique(items, i, w);
  }

  // ---------------------------------------------------------------------
  // Pass 2: first partial match

  predicate PartialHit(query: string, phrase: string, partial: Scorer)
  {
    partial(query, phrase) >= THRESHOLD
  }

  predicate AnyPartialHit(query: string, phrasings: seq<string>, partial: Scorer)
  {
    exists j :: 0 <= j < |phrasings| && PartialHit(query, phrasings[j], partial)
  }

  /** The answer of the first entry that has some phrasing with a partial
      hit; scanning stops there. */
  function Pass2(query: string, kb: KnowledgeBase, partial: Scorer): Option<string>
    decreases |kb|
  {
    if |kb| == 0 then None
    else if |kb[0].questions| == 0 then Pass2(query, kb[1..], partial)
    else if AnyPartialHit(query, kb[0].questions, partial) then Some(kb[0].answer)
    else Pass2(query, kb[1..], partial)
  }

  /** Phrasing `j` of entry `i` is the first partial hit in entry order,
      then phrasing order. */
  ghost predicate IsFirstHit(query: string, kb: KnowledgeBase, partial: Scorer, i: int, j: int)
  {
    && 0 <= i < |kb|
    && 0 <= j < |kb[i].questions|
    && PartialHit(query, kb[i].questions[j], partial)
    && (forall i', j' :: 0 <= i' < i && 0 <= j' < |kb[i'].questions| ==>
          !PartialHit(query, kb[i'].questions[j'], partial))
    && (forall j' :: 0 <= j' < j ==> !PartialHit(query, kb[i].questions[j'], partial))
  }

  ghost predicate NoPartialMatch(query: string, kb: KnowledgeBase, partial: Scorer)
  {
    forall i, j :: 0 <= i < |kb| && 0 <= j < |kb[i].questions| ==> !PartialHit(query, kb[i].questions[j], partial)
  }

  /** The phrasing index of the first partial hit within one entry. */
  lemma FirstHitWithin(query: string, phrasings: seq<string>, partial: Scorer) returns (j: int)
    requires AnyPartialHit(query, phrasings, partial)
    ensures 0 <= j < |phrasings| && PartialHit(query, phrasings[j], partial)
    ensures forall j' :: 0 <= j' < j ==> !PartialHit(query, phrasings[j'], partial)
  {
    j := 0;
    while !PartialHit(query, phrasings[j], partial)
      invariant 0 <= j < |phrasings|
      invariant forall j' :: 0 <= j' < j ==> !PartialHit(query, phrasings[j'], partial)
      decreases |phrasings| - j
    {
      j := j + 1;
    }
  }

  /** Pass 2 finds nothing exactly when no phrasing has a partial hit;
      otherwise it returns the answer of the entry holding the first hit. */
  lemma {:induction false} Pass2Characterization(query: string, kb: KnowledgeBase, partial: Scorer) returns (i: int, j: int)
    ensures Pass2(query, kb, partial).None? <==> NoPartialMatch(query, kb, partial)
    ensures Pass2(query, kb, partial).Some? ==>
      IsFirstHit(query, kb, partial, i, j) && Pass2(query, kb, partial).value == kb[i].answer
    decreases |kb|
  {
    i, j := 0, 0;
    if |kb| == 0 {
    } else {
      var rest := kb[1..];
      assert forall i :: 1 <= i < |kb| ==> kb[i] == rest[i - 1];
      if |kb[0].questions| != 0 && AnyPartialHit(query, kb[0].questions, partial) {
        j := FirstHitWithin(query, kb[0].questions, partial);
        assert IsFirstHit(query, kb, partial, 0, j);
      } else {
        var i', j' := Pass2Characterization(query, rest, partial);
        assert forall j :: 0 <= j < |kb[0].questions| ==> !PartialHit(query, kb[0].questions[j], partial);
        if Pass2(query, rest, partial).Some? {
          assert IsFirstHit(query, kb, partial, i' + 1, j');
          i, j := i' + 1, j';
        }
      }
    }
  }

  /** At most one phrasing is the first hit. */
  lemma FirstHitUnique(query: string, kb: KnowledgeBase, partial: Scorer, i: int, j: int, i': int, j': int)
    requires IsFirstHit(query, kb, partial, i, j) && IsFirstHit(query, kb, partial, i', j')
    ensures i == i' && j == j'
  {
  }

  /** Pass 2 returns the answer holding the first hit, even when a later
      phrasing would score higher. */
  lemma Pass2SelectsFirstHit(query: string, kb: KnowledgeBase, partial: Scorer, i: int, j: int)
    requires IsFirstHit(query, kb, partial, i, j)
    ensures Pass2(query, kb, partial) == Some(kb[i].answer)
  {
    var i', j' := Pass2Characterization(query, kb, partial);
    FirstHitUnique(query, kb, partial, i, j, i', j');
  }

  // ---------------------------------------------------------------------
  // The selector

  /** Whatever pass 1 keeps is the answer of an entry with phrasings. */
  lemma Pass1Source(query: string, kb: KnowledgeBase, full: Scorer)
    ensures Pass1(query, kb, full).Some? ==>
      exists i :: 0 <= i < |kb| && |kb[i].questions| > 0 && Pass1(query, kb, full).value.answer == kb[i].answer
  {
    var w := Pass1Characterization(query, kb, full);
  }

  /** Whatever pass 2 returns is the answer of an entry with phrasings. */
  lemma Pass2Source(query: string, kb: KnowledgeBase, partial: Scorer)
    ensures Pass2(query, kb, partial).Some? ==>
      exists i :: 0 <= i < |kb| && |kb[i].questions| > 0 && Pass2(query, kb, partial).value == kb[i].answer
  {
    var i, j := Pass2Characterization(query, kb, partial);
  }

  /** `find_best_answer`: the pass-1 answer when it is a non-empty string
      (the source tests its truthiness), else the pass-2 answer, else the
      default response. */
  function FindBestAnswer(query: string, kb: KnowledgeBase, full: Scorer, partial: Scorer): string
  {
    var best := Pass1(query, kb, full);
    if best.Some? && best.value.answer != "" then best.value.answer
    else
      var second := Pass2(query, kb, partial);
      if second.Some? then second.value else DEFAULT_RESPONSE
  }

  /** The reply is the default response or the answer of an entry that has
      phrasings. */
  lemma AnswerProvenance(query: string, kb: KnowledgeBase, full: Scorer, partial: Scorer)
    ensures var r := FindBestAnswer(query, kb, full, partial);
      r == DEFAULT_RESPONSE || exists i :: 0 <= i < |kb| && |kb[i].questions| > 0 && r == kb[i].answer
  {
    Pass1Source(query, kb, full);
    Pass2Source(query, kb, partial);
  }

  /** Pass 1 settles the answer: its winner has a non-empty answer. */
  ghost predicate Pass1Decides(query: string, kb: KnowledgeBase, full: Scorer)
  {
    exists i :: IsWinner(query, kb, full, i) && kb[i].answer != ""
  }

  /** A winner with a non-empty answer is returned, whatever pass 2 would
      have found. */
  lemma {:induction false} AnswerFromPass1(query: string, kb: KnowledgeBase, full: Scorer, partial: Scorer, i: int)
    requires IsWinner(query, kb, full, i) && kb[i].answer != ""
    ensures FindBestAnswer(query, kb, full, partial) == kb[i].answer
  {
    Pass1SelectsWinner(query, kb, full, i);
  }

  /** When pass 1 does not settle the answer (no entry qualifies, or the
      winner's answer is empty) the first partial hit decides. */
  lemma {:induction false} AnswerFromPass2(query: string, kb: KnowledgeBase, full: Scorer, partial: Scorer, i: int, j: int)
    requires !Pass1Decides(query, kb, full)
    requires IsFirstHit(query, kb, partial, i, j)
    ensures FindBestAnswer(query, kb, full, partial) == kb[i].answer
  {
    var w := Pass1Characterization(query, kb, full);
    Pass2SelectsFirstHit(query, kb, partial, i, j);
  }

  /** A pass-1 winner whose answer is the empty string falls through to
      pass 2. */
  lemma EmptyWinnerFallsThrough(query: string, kb: KnowledgeBase, full: Scorer, partial: Scorer, w: int)
    requires IsWinner(query, kb, full, w) && kb[w].answer == ""
    ensures !Pass1Decides(query, kb, full)
  {
    forall i | IsWinner(query, kb, full, i)
      ensures kb[i].answer == ""
    {
      WinnerUnique(ScoreEntries(query, kb, full), i, w);
    }
  }

  /** Neither pass settles the answer: the default response. */
  lemma {:induction false} DefaultWhenUnmatched(query: string, kb: KnowledgeBase, full: Scorer, partial: Scorer)
    requires !Pass1Decides(query, kb, full)
    requires NoPartialMatch(query, kb, partial)
    ensures FindBestAnswer(query, kb, full, partial) == DEFAULT_RESPONSE
  {
    var w := Pass1Characterization(query, kb, full);
    var i, j := Pass2Characterization(query, kb, partial);
  }

  /** No phrasing scores 90 under either scorer: the default response. */
  lemma NoMatchGivesDefault(query: string, kb: KnowledgeBase, full: Scorer, partial: Scorer)
    requires forall i, j :: 0 <= i < |kb| && 0 <= j < |kb[i].questions| ==>
      full(query, kb[i].questions[j]) < THRESHOLD && partial(query, kb[i].questions[j]) < THRESHOLD
    ensures FindBestAnswer(query, kb, full, partial) == DEFAULT_RESPONSE
  {
    forall i | 0 <= i < |kb|
      ensures EntryScore(query, kb[i], full).None?
    {
    }
    DefaultWhenUnmatched(query, kb, full, partial);
  }

  // ---------------------------------------------------------------------
  // Entries without phrasings

  lemma {:induction false} BestSkipsUnscored(xs: seq<Scored>, x: Scored, ys: seq<Scored>)
    requires x.score.None?
    ensures Best(xs + [x] + ys) == Best(xs + ys)
    decreases |ys|
  {
    if |ys| == 0 {
      assert xs + [x] + ys == xs + [x];
      assert xs + ys == xs;
      BestSnoc(xs, x);
    } else {
      var ys' := ys[..|ys| - 1];
      var last := ys[|ys| - 1];
      BestSkipsUnscored(xs, x, ys');
      assert xs + [x] + ys == (xs + [x] + ys') + [last];
      assert xs + ys == (xs + ys') + [last];
      BestSnoc(xs + [x] + ys', last);
      BestSnoc(xs + ys', last);
    }
  }

  lemma Pass1SkipsEmpty(query: string, a: KnowledgeBase, e: Entry, b: KnowledgeBase, full: Scorer)
    requires |e.questions| == 0
    ensures Pass1(query, a + [e] + b, full) == Pass1(query, a + b, full)
  {
    var sa := ScoreEntries(query, a, full);
    var sb := ScoreEntries(query, b, full);
    var x := Scored(None, e.answer);
    assert ScoreEntries(query, a + [e] + b, full) == sa + [x] + sb;
    assert ScoreEntries(query, a + b, full) == sa + sb;
    BestSkipsUnscored(sa, x, sb);
  }

  lemma {:induction false} Pass2SkipsEmpty(query: string, a: KnowledgeBase, e: Entry, b: KnowledgeBase, partial: Scorer)
    requires |e.questions| == 0
    ensures Pass2(query, a + [e] + b, partial) == Pass2(query, a + b, partial)
    decreases |a|
  {
    if |a| == 0 {
      assert a + [e] + b == [e] + b;
      assert ([e] + b)[1..] == b;
      assert a + b == b;
    } else {
      Pass2SkipsEmpty(query, a[1..], e, b, partial);
      assert (a + [e] + b)[0] == a[0] && (a + [e] + b)[1..] == a[1..] + [e] + b;
      assert (a + b)[0] == a[0] && (a + b)[1..] == a[1..] + b;
    }
  }

  /** An entry without phrasings never influences the answer: removing it
      leaves the result of both passes, and so the answer, unchanged. */
  lemma EmptyEntryNeverSelected(query: string, kb: KnowledgeBase, full: Scorer, partial: Scorer, k: int)
    requires 0 <= k < |kb| && |kb[k].questions| == 0
    ensures FindBestAnswer(query, kb, full, partial) == FindBestAnswer(query, kb[..k] + kb[k + 1..], full, partial)
  {
    assert kb == kb[..k] + [kb[k]] + kb[k + 1..];
    Pass1SkipsEmpty(query, kb[..k], kb[k], kb[k + 1..], full);
    Pass2SkipsEmpty(query, kb[..k], kb[k], kb[k + 1..], partial);
  }

  // ---------------------------------------------------------------------
  // The selector as the source writes it: two loops over the entries

  /** The first loop of `find_best_answer`: the running best answer and
      score, replaced only on a strictly greater score. */
  method RunPass1(query: string, kb: KnowledgeBase, full: Scorer) returns (bestMatch: Option<string>, bestScore: Score)
    ensures bestMatch.None? ==> Pass1(query, kb, full).None? && bestScore == 0.0
    ensures bestMatch.Some? ==> Pass1(query, kb, full) == Some(Candidate(bestScore, bestMatch.value))
  {
    ghost var items := ScoreEntries(query, kb, full);
    bestMatch := None;
    bestScore := 0.0;
    var i := 0;
    while i < |kb|
      invariant 0 <= i <= |kb|
      invariant bestMatch.None? ==> bestScore == 0.0
      invariant Best(items[..i]) == if bestMatch.None? then None else Some(Candidate(bestScore, bestMatch.value))
    {
      assert items[..i + 1] == items[..i] + [items[i]];
      BestSnoc(items[..i], items[i]);
      if |kb[i].questions| != 0 {
        var result := ExtractOne(query, kb[i].questions, full, THRESHOLD);
        if result.Some? {
          if result.value > bestScore {
            bestScore := result.value;
            bestMatch := Some(kb[i].answer);
          }
        }
      }
      i := i + 1;
    }
    assert items[..|kb|] == items;
  }

  /** The inner loop of the second pass: the first phrasing with a
      partial hit, if any. */
  method FindPartialHit(query: string, phrasings: seq<string>, partial: Scorer) returns (found: bool)
    ensures found <==> AnyPartialHit(query, phrasings, partial)
  {
    var j := 0;
    while j < |phrasings|
      invariant 0 <= j <= |phrasings|
      invariant forall j' :: 0 <= j' < j ==> !PartialHit(query, phrasings[j'], partial)
    {
      if partial(query, phrasings[j]) >= THRESHOLD {
        return true;
      }
      j := j + 1;
    }
    return false;
  }

  /** The second loop of `find_best_answer`: the answer of the first entry
      holding a partial hit, if any. */
  method RunPass2(query: string, kb: KnowledgeBase, partial: Scorer) returns (r: Option<string>)
    ensures r == Pass2(query, kb, partial)
  {
    var i := 0;
    while i < |kb|
      invariant 0 <= i <= |kb|
      invariant Pass2(query, kb, partial) == Pass2(query, kb[i..], partial)
    {
      assert kb[i..][1..] == kb[i + 1..];
      if |kb[i].questions| != 0 {
        var found := FindPartialHit(query, kb[i].questions, partial);
        if found {
          return Some(kb[i].answer);
        }
      }
      i := i + 1;
    }
    return None;
  }

  /** `find_best_answer` as the source writes it: the pass-1 loop, the
      truthiness test on its answer, the pass-2 loop, the default. */
  method FindBestAnswerLoops(query: string, kb: KnowledgeBase, full: Scorer, partial: Scorer) returns (r: string)
    ensures r == FindBestAnswer(query, kb, full, partial)
  {
    var bestMatch, bestScore := RunPass1(query, kb, full);
    if bestMatch.Some? && bestMatch.value != "" {
      return bestMatch.value;
    }
    var second := RunPass2(query, kb, partial);
    if second.Some? {
      return second.value;
    }
    return DEFAULT_RESPONSE;
  }
}
