/** String helpers with Python's semantics. */
module Text {

  /** `pat` occurs in `s` starting at index `k`. */
  predicate OccursAt(s: string, pat: string, k: nat)
  {
    k + |pat| <= |s| && s[k..k + |pat|] == pat
  }

  predicate Contains(s: string, pat: string)
  {
    exists k :: 0 <= k <= |s| && OccursAt(s, pat, k)
  }

  /** `s.endswith(suffix)` */
  predicate EndsWith(s: string, suffix: string)
  {
    |suffix| <= |s| && s[|s| - |suffix|..] == suffix
  }

  predicate IsDigits(s: string)
  {
    forall i :: 0 <= i < |s| ==> '0' <= s[i] <= '9'
  }

  /** `s.replace(pat, "")`: scans left to right and drops every
      non-overlapping occurrence of `pat`. */
  function RemoveAll(s: string, pat: string): (r: string)
    requires |pat| > 0
    ensures |r| <= |s|
    decreases |s|
  {
    if |s| < |pat| then s
    else if s[..|pat|] == pat then RemoveAll(s[|pat|..], pat)
    else [s[0]] + RemoveAll(s[1..], pat)
  }

  lemma OccursAtShift(c: char, s: string, pat: string, k: nat)
    ensures OccursAt([c] + s, pat, k + 1) <==> OccursAt(s, pat, k)
  {
    if k + |pat| <= |s| {
      assert ([c] + s)[k + 1..k + 1 + |pat|] == s[k..k + |pat|];
    }
  }

  /** A string without an occurrence of `pat` comes back unchanged. */
  lemma {:induction false} RemoveAllWithoutOccurrence(s: string, pat: string)
    requires |pat| > 0
    requires !Contains(s, pat)
    ensures RemoveAll(s, pat) == s
    decreases |s|
  {
    if |s| < |pat| {
    } else {
      assert !OccursAt(s, pat, 0);
      assert s[..|pat|] != pat;
      assert s == [s[0]] + s[1..];
      forall k: nat
        ensures !OccursAt(s[1..], pat, k)
      {
        OccursAtShift(s[0], s[1..], pat, k);
        assert !OccursAt(s, pat, k + 1);
      }
      RemoveAllWithoutOccurrence(s[1..], pat);
    }
  }

  /** When no occurrence of `pat` in `y + z` starts inside `y`, the prefix
      `y` is kept verbatim. */
  lemma {:induction false} RemoveAllKeepsCleanPrefix(y: string, z: string, pat: string)
    requires |pat| > 0
    requires forall k: nat :: k < |y| ==> !OccursAt(y + z, pat, k)
    ensures RemoveAll(y + z, pat) == y + RemoveAll(z, pat)
    decreases |y|
  {
    if |y| == 0 {
      assert y + z == z;
    } else {
      var s := y + z;
      if |s| < |pat| {
      } else {
        assert !OccursAt(s, pat, 0);
        assert s[..|pat|] != pat;
        assert s[1..] == y[1..] + z;
        forall k: nat | k < |y[1..]|
          ensures !OccursAt(y[1..] + z, pat, k)
        {
          assert s == [s[0]] + (y[1..] + z);
          OccursAtShift(s[0], y[1..] + z, pat, k);
        }
        RemoveAllKeepsCleanPrefix(y[1..], z, pat);
        assert [y[0]] + y[1..] == y;
      }
    }
  }

  /** A trailing `pat` is dropped and nothing before it changes, provided
      no occurrence starts before it. */
  lemma {:induction false} RemoveAllDropsTrailing(y: string, pat: string)
    requires |pat| > 0
    requires forall k: nat :: k < |y| ==> !OccursAt(y + pat, pat, k)
    ensures RemoveAll(y + pat, pat) == y
  {
    RemoveAllKeepsCleanPrefix(y, pat, pat);
    assert pat[|pat|..] == [];
    assert RemoveAll(pat, pat) == RemoveAll([], pat);
    assert y + [] == y;
  }

  /** The removal is not idempotent: dropping the inner ".json" of
      ".js.jsonon" glues a fresh ".json" together. */
  lemma RemoveAllCanLeaveOccurrence()
    ensures RemoveAll(".js.jsonon", ".json") == ".json"
  {
    var pat := ".json";
    assert RemoveAll("on", pat) == "on";
    assert ".jsonon"[..5] == pat;
    assert RemoveAll(".jsonon", pat) == "on";
    assert "s.jsonon"[..5][0] != pat[0];
    assert RemoveAll("s.jsonon", pat) == "son";
    assert "js.jsonon"[..5][0] != pat[0];
    assert RemoveAll("js.jsonon", pat) == "json";
    assert ".js.jsonon"[..5][4] != pat[4];
  }
}
