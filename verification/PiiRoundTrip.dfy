/** When every run of `tokenise` on a text can be undone, as a condition on the text alone. */
module PiiRoundTrip {
  import opened Regex
  import opened PiiPatterns
  import opened Substitution
  import opened Tokeniser
  import opened PiiTheorems
  import opened PiiLocality
  import opened PiiFixedPoint
  import opened PiiShapes
  import Graph

  // -------------------------------------------------------------------------
  // Ids
  // -------------------------------------------------------------------------

  const ZERO: Id := "00000000"

  /** How many ids there are. */
  const ID_COUNT: nat := 0x1_0000_0000

  function Power16(k: nat): (p: nat)
    ensures p > 0
  {
    if k == 0 then 1 else 16 * Power16(k - 1)
  }

  function Digit(d: nat): (c: char)
    requires d < 16
    ensures HexDigit(c)
  {
    if d < 10 then '0' + d as char else 'a' + (d - 10) as char
  }

  function DigitValue(c: char): (d: nat)
    requires HexDigit(c)
    ensures d < 16 && Digit(d) == c
  {
    if AsciiDigit(c) then (c - '0') as nat else (c - 'a') as nat + 10
  }

  /** The k-digit hexadecimal form of n. */
  function Hex(n: nat, k: nat): (s: string)
    ensures |s| == k && forall i | 0 <= i < |s| :: HexDigit(s[i])
  {
    if k == 0 then "" else Hex(n / 16, k - 1) + [Digit(n % 16)]
  }

  function HexValue(s: string): (n: nat)
    requires forall i | 0 <= i < |s| :: HexDigit(s[i])
    ensures n < Power16(|s|)
  {
    if s == "" then 0
    else
      var front := s[..|s| - 1];
      16 * HexValue(front) + DigitValue(s[|s| - 1])
  }

  lemma {:induction false} DigitInjective(a: nat, b: nat)
    requires a < 16 && b < 16 && Digit(a) == Digit(b)
    ensures a == b
  {
  }

  lemma {:induction false} HexInjective(a: nat, b: nat, k: nat)
    requires a < Power16(k) && b < Power16(k) && Hex(a, k) == Hex(b, k)
    ensures a == b
  {
    if k > 0 {
      var p, q := Hex(a / 16, k - 1), Hex(b / 16, k - 1);
      assert Hex(a, k)[..k - 1] == p && Hex(b, k)[..k - 1] == q;
      assert Hex(a, k)[k - 1] == Digit(a % 16) && Hex(b, k)[k - 1] == Digit(b % 16);
      DigitInjective(a % 16, b % 16);
      HexInjective(a / 16, b / 16, k - 1);
    }
  }

  lemma {:induction false} HexOfValue(s: string)
    requires forall i | 0 <= i < |s| :: HexDigit(s[i])
    ensures Hex(HexValue(s), |s|) == s
  {
    if s != "" {
      var front, d := s[..|s| - 1], DigitValue(s[|s| - 1]);
      HexOfValue(front);
      assert HexValue(s) / 16 == HexValue(front) && HexValue(s) % 16 == d;
    }
  }

  lemma {:induction false} EightDigits()
    ensures Power16(8) == ID_COUNT
  {
    assert Power16(4) == 0x1_0000;
    assert Power16(5) == 0x10_0000;
    assert Power16(6) == 0x100_0000;
    assert Power16(7) == 0x1000_0000;
  }

  /** The numbers in order, with i and v swapped. */
  function Swap(i: nat, v: nat, k: nat): nat {
    if k == i then v else if k == v then i else k
  }

  /** Ids that are all different below `ID_COUNT`, with `id` drawn at place i. */
  function IdsWith(i: nat, id: Id): nat -> Id {
    k => Hex(Swap(i, HexValue(id), k), 8)
  }

  lemma {:induction false} IdsWithDistinct(i: nat, id: Id)
    requires i < ID_COUNT
    ensures IdsWith(i, id)(i) == id
    ensures forall a: nat, b: nat | a < b < ID_COUNT :: IdsWith(i, id)(a) != IdsWith(i, id)(b)
  {
    EightDigits();
    HexOfValue(id);
    var v := HexValue(id);
    forall a: nat, b: nat | a < b < ID_COUNT
      ensures IdsWith(i, id)(a) != IdsWith(i, id)(b)
    {
      if IdsWith(i, id)(a) == IdsWith(i, id)(b) {
        HexInjective(Swap(i, v, a), Swap(i, v, b), 8);
      }
    }
  }

  // -------------------------------------------------------------------------
  // What a dry run with one fixed id tells
  // -------------------------------------------------------------------------

  function DryRun(tab: Table, text: string): seq<Entry> {
    Tokenised(tab, text, _ => ZERO).log
  }

  /** The labels of the pieces that any run on the text replaces. */
  ghost predicate Replaces(tab: Table, text: string, name: string) {
    name in LABELS && exists i: nat :: ReplacesAt(tab, text, name, i)
  }

  ghost predicate ReplacesAt(tab: Table, text: string, name: string, i: nat) {
    i < |DryRun(tab, text)| && DryRun(tab, text)[i].placeholder == Placeholder(name, ZERO)
  }

  lemma {:induction false} PlaceholderName(a: string, ida: Id, b: string, idb: Id)
    requires Placeholder(a, ida) == Placeholder(b, idb)
    ensures a == b
  {
    var p, q := Placeholder(a, ida), Placeholder(b, idb);
    assert p[5..|p| - 10] == a && q[5..|q| - 10] == b;
  }

  lemma {:induction false} SameName(a: Entry, b: Entry, name: string, id: Id, jd: Id)
    requires SameLabel(a, b) && b.placeholder == Placeholder(name, jd)
    requires exists other: string :: a.placeholder == Placeholder(other, id)
    ensures a.placeholder == Placeholder(name, id)
  {
    var n, ida, idb :| n in LABELS && a.placeholder == Placeholder(n, ida) && b.placeholder == Placeholder(n, idb);
    var other :| a.placeholder == Placeholder(other, id);
    hide Placeholder;
    PlaceholderName(n, idb, name, jd);
    PlaceholderName(n, ida, other, id);
    PlaceholderInjective(n, ida, other, id);
  }

  /** Entry i of any run carries the i-th id and the label the dry run has there. */
  lemma {:induction false} EntryOfRun(tab: Table, text: string, ids: nat -> Id, i: nat) returns (name: string)
    requires i < |Tokenised(tab, text, ids).log|
    ensures |DryRun(tab, text)| == |Tokenised(tab, text, ids).log|
    ensures name in LABELS && ReplacesAt(tab, text, name, i)
    ensures Tokenised(tab, text, ids).log[i].placeholder == Placeholder(name, ids(i))
  {
    hide Passes, Placeholder, PATTERNS, LABELS;
    LogsAlike(tab, text, ids, _ => ZERO);
    var a, b := Tokenised(tab, text, ids).log[i], DryRun(tab, text)[i];
    assert SameLabel(a, b);
    PassesDrawIds(tab, PATTERNS, text, _ => ZERO, 0, i);
    PassesDrawIds(tab, PATTERNS, text, ids, 0, i);
    var p :| p in PATTERNS && b.placeholder == Placeholder(p.name, ZERO);
    var q :| q in PATTERNS && a.placeholder == Placeholder(q.name, ids(0 + i));
    name := p.name;
    SameName(a, b, name, ids(i), ZERO);
    PatternLabel(p);
  }

  lemma {:induction false} PatternLabel(p: Pattern)
    requires p in PATTERNS
    ensures p.name in LABELS
  {
  }

  // -------------------------------------------------------------------------
  // The condition
  // -------------------------------------------------------------------------

  /** The text contains no placeholder, with any id, for a label that is replaced in it. */
  ghost predicate Unambiguous(tab: Table, text: string) {
    forall name: string, id: Id | Replaces(tab, text, name) :: !Occurs(text, Placeholder(name, id))
  }

  ghost predicate DistinctIds(ids: nat -> Id, n: nat) {
    forall i: nat, j: nat | i < j < n :: ids(i) != ids(j)
  }

  /** This run, undone in this order, gives the text back. */
  ghost predicate Restores(tab: Table, text: string, ids: nat -> Id, order: seq<string>)
    requires Enumerates(order, MapOf(Tokenised(tab, text, ids).log).Keys)
  {
    DetokeniseIn(order, MapOf(Tokenised(tab, text, ids).log), Tokenised(tab, text, ids).text) == text
  }

  /** Every run with distinct ids, undone in any order, gives the text back. */
  ghost predicate AlwaysRestored(tab: Table, text: string) {
    forall ids: nat -> Id, order: seq<string> |
      DistinctIds(ids, |Tokenised(tab, text, ids).log|)
          && Enumerates(order, MapOf(Tokenised(tab, text, ids).log).Keys) ::
      Restores(tab, text, ids, order)
  }

  lemma {:induction false} UnambiguousRestored(tab: Table, text: string, ids: nat -> Id, order: seq<string>)
    requires Unambiguous(tab, text) && DistinctIds(ids, |Tokenised(tab, text, ids).log|)
    requires Enumerates(order, MapOf(Tokenised(tab, text, ids).log).Keys)
    ensures Restores(tab, text, ids, order)
  {
    hide Tokenised, Placeholder, Occurs, DetokeniseIn, MapOf, Enumerates, LABELS, DryRun;
    var log := Tokenised(tab, text, ids).log;
    forall e | e in log
      ensures !Occurs(text, e.placeholder)
    {
      var i :| 0 <= i < |log| && log[i] == e;
      var name := EntryOfRun(tab, text, ids, i);
      assert Replaces(tab, text, name);
    }
    RoundTripDistinct(tab, text, ids, order);
  }

  lemma {:induction false} EnumerationOf(keys: set<string>) returns (order: seq<string>)
    ensures Enumerates(order, keys)
    decreases |keys|
  {
    if keys == {} {
      order := [];
    } else {
      var p :| p in keys;
      var rest := EnumerationOf(keys - {p});
      order := [p] + rest;
    }
  }

  lemma {:induction false} LogConsistent(tab: Table, text: string, ids: nat -> Id)
    requires DistinctIds(ids, |Tokenised(tab, text, ids).log|)
    ensures Consistent(Tokenised(tab, text, ids).log)
  {
    hide Passes, PATTERNS;
    var log := Tokenised(tab, text, ids).log;
    forall a, b | a in log && b in log && a.placeholder == b.placeholder
      ensures a.original == b.original
    {
      var i :| 0 <= i < |log| && log[i] == a;
      var j :| 0 <= j < |log| && log[j] == b;
      SamePlaceholderSameId(tab, PATTERNS, text, ids, i, j);
    }
  }

  /** A text that contains a placeholder some run can write is not restored by that run, in any order. */
  lemma {:induction false} AmbiguousSpoiled(
      tab: Table, text: string, name: string, id: Id, ids: nat -> Id, i: nat, order: seq<string>)
    requires ReplacesAt(tab, text, name, i) && name in LABELS && Occurs(text, Placeholder(name, id)) && ids(i) == id
    requires DistinctIds(ids, |Tokenised(tab, text, ids).log|)
    requires Enumerates(order, MapOf(Tokenised(tab, text, ids).log).Keys)
    ensures !Restores(tab, text, ids, order)
  {
    hide Tokenised, Placeholder, Occurs, DetokeniseIn, MapOf, Enumerates, LABELS, DistinctIds;
    LogsAlike(tab, text, ids, _ => ZERO);
    var other := EntryOfRun(tab, text, ids, i);
    PlaceholderName(other, ZERO, name, ZERO);
    var e := Tokenised(tab, text, ids).log[i];
    assert e.placeholder == Placeholder(name, id) && e in Tokenised(tab, text, ids).log;
    LogConsistent(tab, text, ids);
    RoundTrip(tab, text, ids, order);
  }

  lemma {:induction false} SpoilingRun(tab: Table, text: string, name: string, id: Id)
      returns (ids: nat -> Id, order: seq<string>)
    requires |DryRun(tab, text)| <= ID_COUNT && Replaces(tab, text, name) && Occurs(text, Placeholder(name, id))
    ensures DistinctIds(ids, |Tokenised(tab, text, ids).log|)
    ensures Enumerates(order, MapOf(Tokenised(tab, text, ids).log).Keys) && !Restores(tab, text, ids, order)
  {
    hide Tokenised, Placeholder, Occurs, MapOf, Enumerates, LABELS, DetokeniseIn, IdsWith;
    var i: nat :| ReplacesAt(tab, text, name, i);
    ids := IdsWith(i, id);
    IdsWithDistinct(i, id);
    LogsAlike(tab, text, ids, _ => ZERO);
    order := EnumerationOf(MapOf(Tokenised(tab, text, ids).log).Keys);
    AmbiguousSpoiled(tab, text, name, id, ids, i, order);
  }

  function Values(ids: nat -> Id, n: nat): (vs: seq<nat>)
    ensures |vs| == n && forall k | 0 <= k < n :: vs[k] == HexValue(ids(k))
  {
    if n == 0 then [] else Values(ids, n - 1) + [HexValue(ids(n - 1))]
  }

  /** More replacements than ids leave no run with distinct ids. */
  lemma {:induction false} TooFewIds(ids: nat -> Id, n: nat)
    requires n > ID_COUNT
    ensures !DistinctIds(ids, n)
  {
    var values := Values(ids, n);
    forall k | 0 <= k < n
      ensures values[k] < ID_COUNT
    {
      EightDigits();
      assert values[k] < Power16(|ids(k)|);
    }
    var i, j := Graph.Repeats(values, ID_COUNT);
    HexOfValue(ids(i));
    HexOfValue(ids(j));
    assert ids(i) == ids(j);
  }

  lemma {:induction false} NoDistinctRun(tab: Table, text: string, ids: nat -> Id)
    requires |DryRun(tab, text)| > ID_COUNT
    ensures !DistinctIds(ids, |Tokenised(tab, text, ids).log|)
  {
    hide Tokenised, DistinctIds;
    LogsAlike(tab, text, ids, _ => ZERO);
    TooFewIds(ids, |Tokenised(tab, text, ids).log|);
  }

  /**
    For every text: all runs with distinct ids restore it, in any order of the map, if and only if it contains
    no placeholder, with whatever id, for a label that is replaced in it (or needs more ids than there are). A
    caller can decide that before the call, by a dry run with one fixed id.
  */
  lemma {:induction false} RestoredExactlyWhen(tab: Table, text: string)
    ensures AlwaysRestored(tab, text) <==> Unambiguous(tab, text) || |DryRun(tab, text)| > ID_COUNT
  {
    hide DryRun, Replaces, Tokenised, Placeholder, Occurs, MapOf, Enumerates, Restores, DistinctIds;
    if |DryRun(tab, text)| > ID_COUNT {
      forall ids: nat -> Id
        ensures !DistinctIds(ids, |Tokenised(tab, text, ids).log|)
      {
        NoDistinctRun(tab, text, ids);
      }
    } else if Unambiguous(tab, text) {
      forall ids: nat -> Id, order: seq<string> |
        DistinctIds(ids, |Tokenised(tab, text, ids).log|)
            && Enumerates(order, MapOf(Tokenised(tab, text, ids).log).Keys)
        ensures Restores(tab, text, ids, order)
      {
        UnambiguousRestored(tab, text, ids, order);
      }
    } else {
      var name: string, id: Id :| Replaces(tab, text, name) && Occurs(text, Placeholder(name, id));
      var ids, order := SpoilingRun(tab, text, name, id);
    }
  }

  /** A text without the marker that every placeholder begins with always comes back. */
  lemma {:induction false} UnmarkedRestored(tab: Table, text: string)
    requires !Occurs(text, "[PII_")
    ensures AlwaysRestored(tab, text)
  {
    hide DryRun, Tokenised, MapOf, Enumerates, Restores, DistinctIds;
    forall name: string, id: Id
      ensures !Occurs(text, Placeholder(name, id))
    {
      MarkerInside(text, name, id);
    }
    forall ids: nat -> Id, order: seq<string> |
      DistinctIds(ids, |Tokenised(tab, text, ids).log|) && Enumerates(order, MapOf(Tokenised(tab, text, ids).log).Keys)
      ensures Restores(tab, text, ids, order)
    {
      UnambiguousRestored(tab, text, ids, order);
    }
  }

  lemma {:induction false} MarkerInside(text: string, name: string, id: Id)
    requires !Occurs(text, "[PII_")
    ensures !Occurs(text, Placeholder(name, id))
  {
    var ph := Placeholder(name, id);
    assert ph[..5] == "[PII_";
    if i: nat :| OccursAt(text, ph, i) {
      assert text[i..i + 5] == text[i..i + |ph|][..5];
      assert OccursAt(text, "[PII_", i);
    }
  }

  // -------------------------------------------------------------------------
  // A prompt that does not come back
  // -------------------------------------------------------------------------

  const PROMPT := "a@b.co [PII_email_00000000]"

  lemma {:induction false} PromptParts()
    ensures PROMPT == "a@b.co" + (" " + Placeholder("email", ZERO))
    ensures |PROMPT| == 27 && PROMPT[7] == '[' && PROMPT[26] == ']'
  {
    assert Placeholder("email", ZERO) == "[PII_email_00000000]";
  }

  lemma {:induction false} LongStretch(k: nat, l: nat)
    requires k + l <= |PROMPT| && l >= 23
    ensures !BracketFree(PROMPT[k..][..l])
  {
    PromptParts();
    assert PROMPT[k..][..l][7 - k] == '[';
  }

  /** No stretch without brackets is long enough for the key pattern. */
  lemma {:induction false} NoKeyMatch(tab: Table, k: nat, l: nat)
    requires k + l <= |PROMPT|
    ensures !Matches(tab, API_KEY.body, PROMPT[k..][..l])
  {
    hide Matches, PROMPT, API_KEY;
    var u := PROMPT[k..][..l];
    KeyBracketFree(tab);
    if Matches(tab, API_KEY.body, u) {
      KeyLength(tab, u);
      LongStretch(k, l);
    }
  }

  lemma {:induction false} NoKeyInPrompt(tab: Table, left: bool, k: nat)
    requires k <= |PROMPT|
    ensures Clean(tab, API_KEY, left, PROMPT[k..])
    decreases |PROMPT| - k
  {
    hide MatchLength, Matches, PROMPT, API_KEY;
    if k < |PROMPT| {
      MatchLengthExact(tab, API_KEY, left, PROMPT[k..]);
      NoKeyMatch(tab, k, MatchLength(tab, API_KEY, left, PROMPT[k..]));
      assert PROMPT[k..][1..] == PROMPT[k + 1..];
      NoKeyInPrompt(tab, tab.word(PROMPT[k..][0]), k + 1);
    }
  }

  lemma {:induction false} KeyBracketFree(tab: Table)
    ensures MatchesBracketFree(tab, API_KEY)
  {
    ApiKeySeparated(tab);
  }

  lemma {:induction false} KeyLength(tab: Table, u: string)
    requires Matches(tab, API_KEY.body, u)
    ensures |u| >= 23
  {
    hide Matches;
    MinLengthSound(tab, API_KEY.body, u);
    assert MinLength(API_KEY.body) == 23;
  }

  lemma {:induction false} NothingLogged(tab: Table, p: Pattern, left: bool, s: string, ids: nat -> Id, n: nat)
    requires Pass(tab, p, left, s, ids, n).log == []
    ensures Pass(tab, p, left, s, ids, n).text == s
    decreases |s|
  {
    hide MatchLength;
    if s != "" { NothingLogged(tab, p, tab.word(s[0]), s[1..], ids, n); }
  }

  lemma {:induction false} EmailAtFront(tab: Table, left: bool)
    ensures !Clean(tab, EMAIL, left, PROMPT)
  {
    hide Matches, Lengths;
    PromptParts();
    assert IsEmail("a@b.co", "a", "b", "co");
    EmailAccepted(tab, "a@b.co", "a", "b", "co");
    assert PROMPT[..6] == "a@b.co";
    assert MatchesAt(tab, EMAIL, left, PROMPT, 6);
    MatchLengthExact(tab, EMAIL, left, PROMPT);
  }

  /** The first piece replaced in the prompt is an address. */
  lemma {:induction false} PromptLog(tab: Table, ids: nat -> Id)
    ensures Tokenised(tab, PROMPT, ids).log != []
    ensures Tokenised(tab, PROMPT, ids).log[0].placeholder == Placeholder("email", ids(0))
  {
    hide Pass, Passes, Clean, MatchLength, Separated, Placeholder, PROMPT, API_KEY, EMAIL, PHONE, CC, IP;
    assert PROMPT[0..] == PROMPT;
    NoKeyInPrompt(tab, false, 0);
    CleanPass(tab, API_KEY, false, PROMPT, ids, 0);
    var rest, later := [EMAIL, PHONE, CC, IP], [PHONE, CC, IP];
    PassesUnfold(tab, PATTERNS, PROMPT, ids, 0);
    assert PATTERNS[1..] == rest && PATTERNS[0] == API_KEY;
    PassesUnfold(tab, rest, PROMPT, ids, 0);
    assert rest[1..] == later;
    EmailLog(tab, ids);
  }

  lemma {:induction false} EmailLog(tab: Table, ids: nat -> Id)
    ensures Pass(tab, EMAIL, false, PROMPT, ids, 0).log != []
    ensures Pass(tab, EMAIL, false, PROMPT, ids, 0).log[0].placeholder == Placeholder("email", ids(0))
  {
    hide Pass, Clean, MatchLength, Separated, Placeholder;
    EmailSeparated(tab);
    PassCleans(tab, EMAIL, EMAIL, false, false, PROMPT, ids, 0);
    EmailAtFront(tab, false);
    if Pass(tab, EMAIL, false, PROMPT, ids, 0).log == [] {
      NothingLogged(tab, EMAIL, false, PROMPT, ids, 0);
    }
    PassDrawsIds(tab, EMAIL, false, PROMPT, ids, 0, 0);
  }

  /** Any run with distinct ids that draws the written one first loses the prompt, in every order of the map. */
  lemma {:induction false} PromptNotRestored(tab: Table, ids: nat -> Id, order: seq<string>)
    requires ids(0) == ZERO && DistinctIds(ids, |Tokenised(tab, PROMPT, ids).log|)
    requires Enumerates(order, MapOf(Tokenised(tab, PROMPT, ids).log).Keys)
    ensures !Restores(tab, PROMPT, ids, order)
  {
    hide Tokenised, Placeholder, DetokeniseIn, MapOf, Enumerates, DistinctIds;
    PromptLog(tab, _ => ZERO);
    PromptParts();
    assert OccursAt(PROMPT, Placeholder("email", ZERO), 7) by { WrittenAtSeven(); }
    AmbiguousSpoiled(tab, PROMPT, "email", ZERO, ids, 0, order);
  }

  lemma {:induction false} WrittenAtSeven()
    ensures OccursAt(PROMPT, Placeholder("email", ZERO), 7)
  {
    PromptParts();
    var ph := Placeholder("email", ZERO);
    hide PROMPT, Placeholder;
    assert PROMPT[7..] == ph;
  }

  /** Such a run exists. */
  lemma {:induction false} PromptSpoiled(tab: Table) returns (ids: nat -> Id, order: seq<string>)
    ensures DistinctIds(ids, |Tokenised(tab, PROMPT, ids).log|)
    ensures Enumerates(order, MapOf(Tokenised(tab, PROMPT, ids).log).Keys) && !Restores(tab, PROMPT, ids, order)
  {
    hide Tokenised, Placeholder, DetokeniseIn, MapOf, Enumerates, IdsWith, PROMPT;
    ids := IdsWith(0, ZERO);
    IdsWithDistinct(0, ZERO);
    FewReplacements(tab, PROMPT, ids);
    PromptParts();
    order := EnumerationOf(MapOf(Tokenised(tab, PROMPT, ids).log).Keys);
    PromptNotRestored(tab, ids, order);
  }

  lemma {:induction false} FewHoles(items: seq<Item>)
    requires Good(items)
    ensures |Holes(items)| <= |Source(items)|
  {
    if items != [] {
      TailHoles(items);
      FewHoles(items[1..]);
      if items[0].Hole? { assert items[0].entry in Holes(items); }
    }
  }

  /** A run replaces no more pieces than the text has characters. */
  lemma {:induction false} FewReplacements(tab: Table, text: string, ids: nat -> Id)
    ensures |Tokenised(tab, text, ids).log| <= |text|
  {
    hide Tokenised, Separated, Genuine;
    var items := TokenisedLifts(tab, text, ids);
    AllGenuineGood(tab, PATTERNS, items);
    FewHoles(items);
    LogSize(Tokenised(tab, text, ids).log);
  }

  lemma {:induction false} LogSize(log: seq<Entry>)
    ensures |multiset(log)| == |log|
  {
  }
}
