/** The tokenised text has no match of any pattern left in it, so tokenising again changes nothing. */
module PiiFixedPoint {
  import opened Regex
  import opened PiiPatterns
  import opened Tokeniser
  import opened PiiTheorems

  /** Whether a word character precedes position `k` of `s`. */
  predicate LeftOf(tab: Table, left: bool, s: string, k: nat)
    requires k <= |s|
  {
    if k == 0 then left else tab.word(s[k - 1])
  }

  /** No match of `p` starts anywhere in `s`. */
  predicate Clean(tab: Table, p: Pattern, left: bool, s: string)
    decreases |s|
  {
    s == "" || (MatchLength(tab, p, left, s) == 0 && Clean(tab, p, tab.word(s[0]), s[1..]))
  }

  lemma {:induction false} CleanTail(tab: Table, p: Pattern, left: bool, s: string, k: nat)
    requires Clean(tab, p, left, s) && k <= |s|
    ensures Clean(tab, p, LeftOf(tab, left, s, k), s[k..])
    decreases k
  {
    hide MatchLength;
    if k == 0 {
      assert s[0..] == s;
    } else {
      CleanTail(tab, p, tab.word(s[0]), s[1..], k - 1);
      assert s[1..][k - 1..] == s[k..];
      assert LeftOf(tab, tab.word(s[0]), s[1..], k - 1) == LeftOf(tab, left, s, k);
    }
  }

  /** A placeholder in front keeps a text clean. */
  lemma {:induction false} CleanAfter(tab: Table, p: Pattern, left: bool, ph: string, k: nat, z: string)
    requires MatchesBracketFree(tab, p) && Bracketed(ph) && CleanInside(tab, p, ph)
    requires k < |ph| && Clean(tab, p, false, z)
    ensures Clean(tab, p, left, ph[k..] + z)
    decreases |ph| - k
  {
    hide MatchLength;
    var s := ph[k..] + z;
    PlaceholderClean(tab, p, ph, left, k, z);
    assert s[0] == ph[k] && s[1..] == ph[k + 1..] + z;
    if k + 1 == |ph| {
      assert s[1..] == z && s[0] == ']';
    } else {
      CleanAfter(tab, p, tab.word(s[0]), ph, k + 1, z);
    }
  }

  // -------------------------------------------------------------------------
  // A bracket-free stretch at the front of a pass's output was copied from its input
  // -------------------------------------------------------------------------

  ghost predicate Copied(tab: Table, q: Pattern, left: bool, s: string, out: string, l: nat) {
    && l <= |s| && l <= |out| && s[..l] == out[..l]
    && (WordAt(tab, s, l) == WordAt(tab, out, l) ||
        (l < |s| && MatchLength(tab, q, LeftOf(tab, left, s, l), s[l..]) > 0))
  }

  lemma {:induction false} OpenFreeCopied(
    tab: Table, q: Pattern, left: bool, s: string, ids: nat -> Id, n: nat, l: nat)
    requires q.name in LABELS && l <= |Pass(tab, q, left, s, ids, n).text|
    requires forall i | 0 <= i < l :: Pass(tab, q, left, s, ids, n).text[i] != '['
    ensures Copied(tab, q, left, s, Pass(tab, q, left, s, ids, n).text, l)
    decreases |s|
  {
    hide Pass, MatchLength, Placeholder, Copied;
    var out := Pass(tab, q, left, s, ids, n).text;
    if l == 0 {
      CopiedNothing(tab, q, left, s, ids, n);
    } else {
      CopiedOne(tab, q, left, s, ids, n);
      var out1 := Pass(tab, q, tab.word(s[0]), s[1..], ids, n).text;
      assert forall i | 0 <= i < l - 1 :: out1[i] == out[i + 1];
      OpenFreeCopied(tab, q, tab.word(s[0]), s[1..], ids, n, l - 1);
      assert out[1..] == out1;
      CopiedCons(tab, q, left, s, out, l);
    }
  }

  lemma {:induction false} CopiedNothing(tab: Table, q: Pattern, left: bool, s: string, ids: nat -> Id, n: nat)
    ensures Copied(tab, q, left, s, Pass(tab, q, left, s, ids, n).text, 0)
  {
    hide Pass, MatchLength, Placeholder;
    PassAtEnd(tab, q, left, "", ids, n);
    assert s[0..] == s;
    if s != "" && MatchLength(tab, q, left, s) == 0 {
      PassCopies(tab, q, left, s, 0, ids, n);
    }
  }

  lemma {:induction false} CopiedOne(tab: Table, q: Pattern, left: bool, s: string, ids: nat -> Id, n: nat)
    requires q.name in LABELS && Pass(tab, q, left, s, ids, n).text != ""
    requires Pass(tab, q, left, s, ids, n).text[0] != '['
    ensures s != ""
    ensures Pass(tab, q, left, s, ids, n).text == [s[0]] + Pass(tab, q, tab.word(s[0]), s[1..], ids, n).text
  {
    hide Pass, MatchLength, Placeholder;
    PassAtEnd(tab, q, left, "", ids, n);
    assert s[0..] == s;
    if s != "" {
      var m := MatchLength(tab, q, left, s);
      if m == 0 {
        PassCopies(tab, q, left, s, 0, ids, n);
      } else {
        PassReplaces(tab, q, left, s, 0, ids, n, m);
        PlaceholderBracketed(q.name, ids(n));
      }
    }
  }

  lemma {:induction false} CopiedCons(tab: Table, q: Pattern, left: bool, s: string, out: string, l: nat)
    requires s != "" && out != "" && s[0] == out[0] && l > 0
    requires Copied(tab, q, tab.word(s[0]), s[1..], out[1..], l - 1)
    ensures Copied(tab, q, left, s, out, l)
  {
    hide MatchLength;
    assert s[..l] == [s[0]] + s[1..][..l - 1];
    assert out[..l] == [out[0]] + out[1..][..l - 1];
    assert s[1..][l - 1..] == s[l..];
    assert LeftOf(tab, tab.word(s[0]), s[1..], l - 1) == LeftOf(tab, left, s, l);
    assert WordAt(tab, s[1..], l - 1) == WordAt(tab, s, l);
    assert WordAt(tab, out[1..], l - 1) == WordAt(tab, out, l);
  }

  // -------------------------------------------------------------------------
  // A pass cleans its own pattern and keeps the earlier ones clean
  // -------------------------------------------------------------------------

  /**
    The character before the output differs from the one before the input only after a replacement, and
    then what follows does not start with a word character.
  */
  ghost predicate SameLeft(tab: Table, r: Pattern, leftIn: bool, leftOut: bool, s: string) {
    r.anchored ==> leftIn == leftOut || !WordAt(tab, s, 0)
  }

  /** A match of `r` at the front of the output of pass `q` was already a match in its input. */
  lemma {:induction false} MatchWasThere(
    tab: Table, q: Pattern, r: Pattern, leftIn: bool, leftOut: bool, s: string, ids: nat -> Id, n: nat, l: nat)
    requires Separated(tab, q) && Separated(tab, r) && (r.anchored ==> q.anchored)
    requires SameLeft(tab, r, leftIn, leftOut, s)
    requires MatchesAt(tab, r, leftOut, Pass(tab, q, leftIn, s, ids, n).text, l)
    ensures MatchesAt(tab, r, leftIn, s, l)
  {
    hide Pass, MatchLength, Matches;
    var out := Pass(tab, q, leftIn, s, ids, n).text;
    var u := out[..l];
    assert BracketFree(u);
    assert forall i | 0 <= i < l :: out[i] == u[i];
    OpenFreeCopied(tab, q, leftIn, s, ids, n, l);
    assert s[..l] == u;
    if r.anchored {
      assert s[0] == u[0] == out[0] && s[l - 1] == u[l - 1] == out[l - 1];
      assert tab.word(u[0]) && tab.word(u[l - 1]);
      if l < |s| && MatchLength(tab, q, LeftOf(tab, leftIn, s, l), s[l..]) > 0 {
        AnchoredMatchStart(tab, q, true, s[l..]);
      }
    }
  }

  /** An anchored pattern cannot match right after a word character. */
  lemma {:induction false} AnchoredMatchStart(tab: Table, q: Pattern, left: bool, s: string)
    requires Separated(tab, q) && q.anchored && MatchLength(tab, q, left, s) > 0
    ensures !left
    ensures var l := MatchLength(tab, q, left, s); tab.word(s[l - 1]) && !WordAt(tab, s, l)
  {
    hide MatchLength, Matches;
    MatchLengthExact(tab, q, left, s);
    var u := s[..MatchLength(tab, q, left, s)];
    assert tab.word(u[0]) && tab.word(u[|u| - 1]);
  }

  lemma {:induction false} PassCleans(
    tab: Table, q: Pattern, r: Pattern, leftIn: bool, leftOut: bool, s: string, ids: nat -> Id, n: nat)
    requires Separated(tab, q) && Separated(tab, r) && (r.anchored ==> q.anchored)
    requires q == r || Clean(tab, r, leftIn, s)
    requires SameLeft(tab, r, leftIn, leftOut, s)
    ensures Clean(tab, r, leftOut, Pass(tab, q, leftIn, s, ids, n).text)
    decreases |s|
  {
    hide Pass, MatchLength, Matches, Placeholder;
    assert s[0..] == s;
    PassAtEnd(tab, q, leftIn, "", ids, n);
    if s != "" {
      var l := MatchLength(tab, q, leftIn, s);
      var out := Pass(tab, q, leftIn, s, ids, n).text;
      if l == 0 {
        PassCopies(tab, q, leftIn, s, 0, ids, n);
        var w := tab.word(s[0]);
        PassCleans(tab, q, r, w, w, s[1..], ids, n);
        assert out[0] == s[0] && out[1..] == Pass(tab, q, w, s[1..], ids, n).text;
        FrontClean(tab, q, r, leftIn, leftOut, s, ids, n);
      } else {
        var w := tab.word(s[l - 1]);
        TailAfterMatch(tab, q, r, leftIn, s);
        PassCleans(tab, q, r, w, false, s[l..], ids, n + 1);
        CleanThroughMatch(tab, q, r, leftIn, leftOut, s, ids, n);
      }
    }
  }

  /** What holds after a replacement is what `PassCleans` needs for the rest. */
  lemma {:induction false} TailAfterMatch(tab: Table, q: Pattern, r: Pattern, left: bool, s: string)
    requires Separated(tab, q) && (r.anchored ==> q.anchored)
    requires q == r || Clean(tab, r, left, s)
    requires MatchLength(tab, q, left, s) > 0
    ensures var l := MatchLength(tab, q, left, s);
            && (q == r || Clean(tab, r, tab.word(s[l - 1]), s[l..]))
            && SameLeft(tab, r, tab.word(s[l - 1]), false, s[l..])
  {
    hide MatchLength, Matches, Clean, Separated;
    var l := MatchLength(tab, q, left, s);
    if q.anchored {
      AnchoredMatchStart(tab, q, left, s);
    }
    if q != r {
      CleanTail(tab, r, left, s, l);
    }
  }

  lemma {:induction false} CleanThroughMatch(
    tab: Table, q: Pattern, r: Pattern, leftIn: bool, leftOut: bool, s: string, ids: nat -> Id, n: nat)
    requires Separated(tab, q) && Separated(tab, r)
    requires s != "" && MatchLength(tab, q, leftIn, s) > 0
    requires var l := MatchLength(tab, q, leftIn, s);
             Clean(tab, r, false, Pass(tab, q, tab.word(s[l - 1]), s[l..], ids, n + 1).text)
    ensures Clean(tab, r, leftOut, Pass(tab, q, leftIn, s, ids, n).text)
  {
    hide Pass, MatchLength, Matches, Placeholder, Clean;
    var l := MatchLength(tab, q, leftIn, s);
    assert s[0..] == s;
    PassReplaces(tab, q, leftIn, s, 0, ids, n, l);
    var ph := Placeholder(q.name, ids(n));
    PlaceholderFacts(tab, r, q.name, ids(n));
    assert ph[0..] == ph;
    CleanAfter(tab, r, leftOut, ph, 0, Pass(tab, q, tab.word(s[l - 1]), s[l..], ids, n + 1).text);
  }

  lemma {:induction false} FrontClean(
    tab: Table, q: Pattern, r: Pattern, leftIn: bool, leftOut: bool, s: string, ids: nat -> Id, n: nat)
    requires Separated(tab, q) && Separated(tab, r) && (r.anchored ==> q.anchored)
    requires SameLeft(tab, r, leftIn, leftOut, s)
    requires MatchLength(tab, r, leftIn, s) == 0
    ensures MatchLength(tab, r, leftOut, Pass(tab, q, leftIn, s, ids, n).text) == 0
  {
    hide Pass, MatchLength, Matches, Separated;
    var out := Pass(tab, q, leftIn, s, ids, n).text;
    MatchLengthExact(tab, r, leftOut, out);
    MatchLengthExact(tab, r, leftIn, s);
    var l := MatchLength(tab, r, leftOut, out);
    if l > 0 {
      MatchWasThere(tab, q, r, leftIn, leftOut, s, ids, n, l);
    }
  }

  // -------------------------------------------------------------------------
  // All the passes
  // -------------------------------------------------------------------------

  /** Once an anchored pattern has run, only anchored patterns follow. */
  ghost predicate AnchoredLast(done: seq<Pattern>, ps: seq<Pattern>) {
    && (forall r, q | r in done && q in ps :: r.anchored ==> q.anchored)
    && (forall i, j | 0 <= i < j < |ps| :: ps[i].anchored ==> ps[j].anchored)
  }

  lemma {:induction false} PassesClean(
    tab: Table, done: seq<Pattern>, ps: seq<Pattern>, s: string, ids: nat -> Id, n: nat, r: Pattern)
    requires AllSeparated(tab, done + ps) && AnchoredLast(done, ps)
    requires forall q | q in done :: Clean(tab, q, false, s)
    requires r in done + ps
    ensures Clean(tab, r, false, Passes(tab, ps, s, ids, n).text)
    decreases |ps|
  {
    hide Pass, Passes, Clean, Separated;
    if ps == [] {
      PassesAtEnd(tab, ps, s, ids, n);
      assert done + ps == done;
    } else {
      var first := Pass(tab, ps[0], false, s, ids, n);
      PassesUnfold(tab, ps, s, ids, n);
      assert (done + [ps[0]]) + ps[1..] == done + ps;
      assert forall q | q in done + [ps[0]] || q in ps[1..] :: q in done + ps;
      forall q | q in done + [ps[0]]
        ensures Clean(tab, q, false, first.text)
      {
        PassCleans(tab, ps[0], q, false, false, s, ids, n);
      }
      PassesClean(tab, done + [ps[0]], ps[1..], first.text, ids, n + |first.log|, r);
    }
  }

  lemma {:induction false} CleanPass(tab: Table, p: Pattern, left: bool, s: string, ids: nat -> Id, n: nat)
    requires Clean(tab, p, left, s)
    ensures Pass(tab, p, left, s, ids, n) == Scan(s, [])
    decreases |s|
  {
    hide MatchLength;
    if s != "" {
      CleanPass(tab, p, tab.word(s[0]), s[1..], ids, n);
    }
  }

  lemma {:induction false} CleanPasses(tab: Table, ps: seq<Pattern>, s: string, ids: nat -> Id, n: nat)
    requires forall p | p in ps :: Clean(tab, p, false, s)
    ensures Passes(tab, ps, s, ids, n) == Scan(s, [])
    decreases |ps|
  {
    hide Pass, Passes, Clean;
    if ps == [] {
      PassesAtEnd(tab, ps, s, ids, n);
    } else {
      PassesUnfold(tab, ps, s, ids, n);
      CleanPass(tab, ps[0], false, s, ids, n);
      CleanPasses(tab, ps[1..], s, ids, n);
    }
  }

  lemma {:induction false} PatternsAnchoredLast()
    ensures AnchoredLast([], PATTERNS)
  {
  }

  lemma {:induction false} TokenisedClean(tab: Table, text: string, ids: nat -> Id)
    ensures forall p | p in PATTERNS :: Clean(tab, p, false, Tokenised(tab, text, ids).text)
  {
    hide Passes, Clean, Separated, AnchoredLast, PATTERNS;
    PatternsSeparated(tab);
    PatternsAnchoredLast();
    assert [] + PATTERNS == PATTERNS;
    forall p | p in PATTERNS
      ensures Clean(tab, p, false, Tokenised(tab, text, ids).text)
    {
      PassesClean(tab, [], PATTERNS, text, ids, 0, p);
    }
  }

  /** After tokenising, no pattern matches anywhere: not across a placeholder's edge, and not at a `\b`. */
  lemma {:induction false} NothingLeftToMatch(tab: Table, text: string, ids: nat -> Id, p: Pattern, k: nat, l: nat)
    requires p in PATTERNS && k <= |Tokenised(tab, text, ids).text|
    ensures var out := Tokenised(tab, text, ids).text;
            !MatchesAt(tab, p, LeftOf(tab, false, out, k), out[k..], l)
  {
    hide Tokenised, PATTERNS, MatchLength, Matches;
    var out := Tokenised(tab, text, ids).text;
    TokenisedClean(tab, text, ids);
    CleanTail(tab, p, false, out, k);
    if k < |out| {
      MatchLengthExact(tab, p, LeftOf(tab, false, out, k), out[k..]);
    }
  }

  /** Tokenising twice is tokenising once: the second run changes nothing and stores nothing. */
  lemma {:induction false} TokeniseIsIdempotent(tab: Table, text: string, ids: nat -> Id, again: nat -> Id)
    ensures var out := Tokenised(tab, text, ids).text;
            Tokenised(tab, out, again) == Scan(out, [])
  {
    hide Passes, Clean, PATTERNS;
    TokenisedClean(tab, text, ids);
    CleanPasses(tab, PATTERNS, Tokenised(tab, text, ids).text, again, 0);
  }
}
