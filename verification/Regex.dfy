/**
  The part of Rust's `regex` crate that the PII patterns use, over strings of Unicode scalar values.

  `Matches` says which whole strings an expression accepts. `Lengths` is the backtracking search: it
  lists the lengths of the matching prefixes in the order leftmost-first search prefers them, and
  `MatchLength` takes the first one whose `\b` anchors hold. `LengthsExact` ties the two together.
*/
module Regex {

  // -------------------------------------------------------------------------
  // Character classes
  // -------------------------------------------------------------------------

  /** The Unicode tables behind `\d`, `\s` and `\w`. */
  datatype CharTable = CharTable(digit: char -> bool, space: char -> bool, word: char -> bool)

  predicate AsciiDigit(c: char) {
    '0' <= c <= '9'
  }

  predicate AsciiLetter(c: char) {
    'a' <= c <= 'z' || 'A' <= c <= 'Z'
  }

  /**
    What every version of the Unicode tables satisfies: ASCII is as expected, `\d` lies inside `\w`, `\s` outside
    it, and the long s and the Kelvin sign are letters.
  */
  ghost predicate StandardTable(t: CharTable) {
    && (forall c :: t.digit(c) ==> t.word(c))
    && (forall c :: t.space(c) ==> !t.word(c))
    && t.word('\U{017F}') && t.word('\U{212A}')
    && (forall c | c < '\U{80}' :: t.digit(c) <==> AsciiDigit(c))
    && (forall c | c < '\U{80}' :: t.word(c) <==> AsciiDigit(c) || AsciiLetter(c) || c == '_')
    && (forall c | c < '\U{80}' :: t.space(c) <==> c == ' ' || '\t' <= c <= '\r')
  }

  const SMALLEST_TABLE := CharTable(
    c => AsciiDigit(c),
    c => c == ' ' || '\t' <= c <= '\r',
    c => AsciiDigit(c) || AsciiLetter(c) || c in "_\U{017F}\U{212A}")

  type Table = t: CharTable | StandardTable(t) witness SMALLEST_TABLE

  datatype Class =
    | OneOf(chars: string)
    | Range(lo: char, hi: char)
    | Digit
    | Space
    | Union(left: Class, right: Class)

  predicate In(tab: Table, cls: Class, c: char) {
    match cls
    case OneOf(chars) => c in chars
    case Range(lo, hi) => lo <= c <= hi
    case Digit => tab.digit(c)
    case Space => tab.space(c)
    case Union(a, b) => In(tab, a, c) || In(tab, b, c)
  }

  // -------------------------------------------------------------------------
  // Expressions and the strings they accept
  // -------------------------------------------------------------------------

  datatype Limit = AtMost(n: nat) | Unlimited {
    predicate Positive() {
      Unlimited? || n > 0
    }
    function Less(): Limit
      requires Positive()
    {
      if Unlimited? then Unlimited else AtMost(n - 1)
    }
  }

  /** `Rep(a, lo, hi)` is the greedy `a{lo,hi}`; every iteration consumes something, as in all the PII patterns. */
  datatype Expr =
    | Set(cls: Class)
    | Then(first: Expr, second: Expr)
    | Or(left: Expr, right: Expr)
    | Rep(body: Expr, lo: nat, hi: Limit)

  ghost predicate Matches(tab: Table, r: Expr, u: string)
    decreases r, 0, 0
  {
    match r
    case Set(cls) => |u| == 1 && In(tab, cls, u[0])
    case Then(a, b) => exists k | 0 <= k <= |u| :: Matches(tab, a, u[..k]) && Matches(tab, b, u[k..])
    case Or(a, b) => Matches(tab, a, u) || Matches(tab, b, u)
    case Rep(a, lo, hi) => MatchesRep(tab, a, lo, hi, u)
  }

  ghost predicate MatchesRep(tab: Table, a: Expr, lo: nat, hi: Limit, u: string)
    decreases a, 1, |u|
  {
    || (lo == 0 && u == "")
    || (hi.Positive() && exists k | 0 < k <= |u| ::
          Matches(tab, a, u[..k]) && MatchesRep(tab, a, Pred(lo), hi.Less(), u[k..]))
  }

  function Pred(n: nat): nat {
    if n == 0 then 0 else n - 1
  }

  // -------------------------------------------------------------------------
  // The backtracking search
  // -------------------------------------------------------------------------

  predicate Within(ls: seq<nat>, n: nat) {
    forall i | 0 <= i < |ls| :: ls[i] <= n
  }

  /** Lengths of the prefixes of `s` that `r` accepts, preferred first. */
  function Lengths(tab: Table, r: Expr, s: string): (ls: seq<nat>)
    ensures Within(ls, |s|)
    decreases r, 0, 0, 0, 0
  {
    match r
    case Set(cls) => if s != "" && In(tab, cls, s[0]) then [1] else []
    case Then(a, b) => ThenLengths(tab, Lengths(tab, a, s), b, s)
    case Or(a, b) => Lengths(tab, a, s) + Lengths(tab, b, s)
    case Rep(a, lo, hi) => RepLengths(tab, a, lo, hi, s)
  }

  function Shift(skip: nat, ls: seq<nat>): (r: seq<nat>)
    ensures |r| == |ls|
    ensures forall i | 0 <= i < |ls| :: r[i] == skip + ls[i]
  {
    seq(|ls|, i requires 0 <= i < |ls| => skip + ls[i])
  }

  function ThenLengths(tab: Table, firsts: seq<nat>, b: Expr, s: string): (ls: seq<nat>)
    requires Within(firsts, |s|)
    ensures Within(ls, |s|)
    decreases b, 2, 0, 0, |firsts|
  {
    if firsts == [] then []
    else Shift(firsts[0], Lengths(tab, b, s[firsts[0]..])) + ThenLengths(tab, firsts[1..], b, s)
  }

  /** Greedy: one more iteration is tried before stopping. */
  function RepLengths(tab: Table, a: Expr, lo: nat, hi: Limit, s: string): (ls: seq<nat>)
    ensures Within(ls, |s|)
    decreases a, 1, |s|, 1, 0
  {
    var more := if hi.Positive() then RepEach(tab, Lengths(tab, a, s), a, Pred(lo), hi.Less(), s) else [];
    if lo == 0 then more + [0] else more
  }

  function RepEach(tab: Table, firsts: seq<nat>, a: Expr, lo: nat, hi: Limit, s: string): (ls: seq<nat>)
    requires Within(firsts, |s|)
    ensures Within(ls, |s|)
    decreases a, 1, |s|, 0, |firsts|
  {
    if firsts == [] then []
    else
      var rest := RepEach(tab, firsts[1..], a, lo, hi, s);
      if firsts[0] == 0 then rest
      else Shift(firsts[0], RepLengths(tab, a, lo, hi, s[firsts[0]..])) + rest
  }

  // -------------------------------------------------------------------------
  // The search finds exactly the accepted prefixes
  // -------------------------------------------------------------------------

  lemma {:induction false} ShiftMember(skip: nat, ls: seq<nat>, l: nat)
    ensures l in Shift(skip, ls) <==> l >= skip && l - skip in ls
  {
    var r := Shift(skip, ls);
    if l in r {
      var i :| 0 <= i < |r| && r[i] == l;
      assert ls[i] == l - skip;
    }
    if l >= skip && l - skip in ls {
      var i :| 0 <= i < |ls| && ls[i] == l - skip;
      assert r[i] == l;
    }
  }

  lemma {:induction false} LengthsExact(tab: Table, r: Expr, s: string, l: nat)
    ensures l in Lengths(tab, r, s) <==> l <= |s| && Matches(tab, r, s[..l])
    decreases r, 0, 0, 0, 0
  {
    match r
    case Set(cls) =>
    case Or(a, b) =>
      LengthsExact(tab, a, s, l);
      LengthsExact(tab, b, s, l);
    case Then(a, b) =>
      var firsts := Lengths(tab, a, s);
      ThenExact(tab, firsts, b, s, l);
      forall k: nat | k <= |s|
        ensures k in firsts <==> Matches(tab, a, s[..k])
      {
        LengthsExact(tab, a, s, k);
      }
      if l <= |s| {
        MatchesThenUnfold(tab, a, b, s, l);
      }
    case Rep(a, lo, hi) =>
      RepExact(tab, a, lo, hi, s, l);
  }

  /** A split of a prefix of `s`, in terms of `s` itself. */
  lemma {:induction false} MatchesThenUnfold(tab: Table, a: Expr, b: Expr, s: string, l: nat)
    requires l <= |s|
    ensures Matches(tab, Then(a, b), s[..l]) <==>
            exists k | 0 <= k <= l :: Matches(tab, a, s[..k]) && Matches(tab, b, s[k..][..l - k])
  {
    var u := s[..l];
    forall k | 0 <= k <= l
      ensures u[..k] == s[..k] && u[k..] == s[k..][..l - k]
    {
    }
  }

  lemma {:induction false} ThenExact(tab: Table, firsts: seq<nat>, b: Expr, s: string, l: nat)
    requires Within(firsts, |s|)
    ensures l in ThenLengths(tab, firsts, b, s) <==>
            l <= |s| && exists k | k in firsts :: k <= l && Matches(tab, b, s[k..][..l - k])
    decreases b, 2, 0, 0, |firsts|
  {
    if firsts != [] {
      var k := firsts[0];
      ShiftMember(k, Lengths(tab, b, s[k..]), l);
      if l >= k {
        LengthsExact(tab, b, s[k..], l - k);
      }
      ThenExact(tab, firsts[1..], b, s, l);
      assert firsts == [k] + firsts[1..];
    }
  }

  lemma {:induction false} RepExact(tab: Table, a: Expr, lo: nat, hi: Limit, s: string, l: nat)
    ensures l in RepLengths(tab, a, lo, hi, s) <==> l <= |s| && MatchesRep(tab, a, lo, hi, s[..l])
    decreases a, 1, |s|, 1, 0
  {
    if hi.Positive() {
      var firsts := Lengths(tab, a, s);
      RepEachExact(tab, firsts, a, Pred(lo), hi.Less(), s, l);
      forall k: nat | k <= |s|
        ensures k in firsts <==> Matches(tab, a, s[..k])
      {
        LengthsExact(tab, a, s, k);
      }
      if l <= |s| {
        MatchesRepUnfold(tab, a, lo, hi, s, l);
      }
    }
  }

  /** One iteration of `MatchesRep` on a prefix of `s`, in terms of `s` itself. */
  lemma {:induction false} MatchesRepUnfold(tab: Table, a: Expr, lo: nat, hi: Limit, s: string, l: nat)
    requires hi.Positive() && l <= |s|
    ensures MatchesRep(tab, a, lo, hi, s[..l]) <==>
            || (lo == 0 && l == 0)
            || exists k | 0 < k <= l ::
                Matches(tab, a, s[..k]) && MatchesRep(tab, a, Pred(lo), hi.Less(), s[k..][..l - k])
  {
    var u := s[..l];
    forall k | 0 < k <= l
      ensures u[..k] == s[..k] && u[k..] == s[k..][..l - k]
    {
    }
  }

  lemma {:induction false} RepEachExact(tab: Table, firsts: seq<nat>, a: Expr, lo: nat, hi: Limit, s: string, l: nat)
    requires Within(firsts, |s|)
    ensures l in RepEach(tab, firsts, a, lo, hi, s) <==>
            l <= |s| && exists k | k in firsts :: 0 < k <= l && MatchesRep(tab, a, lo, hi, s[k..][..l - k])
    decreases a, 1, |s|, 0, |firsts|
  {
    if firsts != [] {
      var k := firsts[0];
      if k > 0 {
        ShiftMember(k, RepLengths(tab, a, lo, hi, s[k..]), l);
        if l >= k {
          RepExact(tab, a, lo, hi, s[k..], l - k);
        }
      }
      RepEachExact(tab, firsts[1..], a, lo, hi, s, l);
      assert firsts == [k] + firsts[1..];
    }
  }

  // -------------------------------------------------------------------------
  // Patterns: an expression, optionally between `\b` anchors
  // -------------------------------------------------------------------------

  datatype Pattern = Pattern(name: string, anchored: bool, body: Expr)

  predicate WordAt(tab: Table, s: string, i: nat) {
    i < |s| && tab.word(s[i])
  }

  /** The `\b` anchors around the first `l` characters of `s`; `left`: a word character precedes `s`. */
  predicate AnchorsHold(tab: Table, p: Pattern, left: bool, s: string, l: nat)
    requires 0 < l <= |s|
  {
    p.anchored ==> left != tab.word(s[0]) && tab.word(s[l - 1]) != WordAt(tab, s, l)
  }

  function Pick(tab: Table, p: Pattern, left: bool, s: string, ls: seq<nat>): (l: nat)
    requires Within(ls, |s|)
    ensures l > 0 ==> l in ls && l <= |s| && AnchorsHold(tab, p, left, s, l)
    ensures l == 0 ==> forall k | k in ls && k > 0 :: !AnchorsHold(tab, p, left, s, k)
  {
    if ls == [] then 0
    else if ls[0] > 0 && AnchorsHold(tab, p, left, s, ls[0]) then ls[0]
    else
      assert ls == [ls[0]] + ls[1..];
      Pick(tab, p, left, s, ls[1..])
  }

  /** Length of the preferred match of `p` at the start of `s`; 0 when there is none. */
  function MatchLength(tab: Table, p: Pattern, left: bool, s: string): (l: nat)
    ensures l <= |s|
  {
    Pick(tab, p, left, s, Lengths(tab, p.body, s))
  }

  ghost predicate MatchesAt(tab: Table, p: Pattern, left: bool, s: string, l: nat) {
    0 < l <= |s| && Matches(tab, p.body, s[..l]) && AnchorsHold(tab, p, left, s, l)
  }

  /** The search answers "no match" only when no length matches, and otherwise answers a length that does. */
  lemma {:induction false} MatchLengthExact(tab: Table, p: Pattern, left: bool, s: string)
    ensures MatchLength(tab, p, left, s) > 0 ==> MatchesAt(tab, p, left, s, MatchLength(tab, p, left, s))
    ensures MatchLength(tab, p, left, s) == 0 ==> forall l: nat :: !MatchesAt(tab, p, left, s, l)
  {
    forall l: nat
      ensures l in Lengths(tab, p.body, s) <==> l <= |s| && Matches(tab, p.body, s[..l])
    {
      LengthsExact(tab, p.body, s, l);
    }
  }

  // -------------------------------------------------------------------------
  // What can be read off an expression about every string it accepts
  // -------------------------------------------------------------------------

  function MinLength(r: Expr): nat {
    match r
    case Set(_) => 1
    case Then(a, b) => MinLength(a) + MinLength(b)
    case Or(a, b) => if MinLength(a) <= MinLength(b) then MinLength(a) else MinLength(b)
    case Rep(_, lo, _) => lo
  }

  function Atoms(cls: Class): set<Class> {
    match cls
    case Union(a, b) => Atoms(a) + Atoms(b)
    case _ => {cls}
  }

  function ClassesOf(r: Expr): set<Class> {
    match r
    case Set(cls) => Atoms(cls)
    case Then(a, b) => ClassesOf(a) + ClassesOf(b)
    case Or(a, b) => ClassesOf(a) + ClassesOf(b)
    case Rep(a, _, _) => ClassesOf(a)
  }

  /** Some class of `r` contains `c`. */
  predicate Uses(tab: Table, r: Expr, c: char) {
    exists cls | cls in ClassesOf(r) :: In(tab, cls, c)
  }

  lemma {:induction false} AtomsSound(tab: Table, cls: Class, c: char)
    requires In(tab, cls, c)
    ensures exists a | a in Atoms(cls) :: In(tab, a, c)
  {
    match cls
    case Union(a, b) => if In(tab, a, c) { AtomsSound(tab, a, c); } else { AtomsSound(tab, b, c); }
    case _ => assert cls in Atoms(cls);
  }

  /** Every accepted string contains `c`. */
  predicate Needs(r: Expr, c: char) {
    match r
    case Set(cls) => cls == OneOf([c])
    case Then(a, b) => Needs(a, c) || Needs(b, c)
    case Or(a, b) => Needs(a, c) && Needs(b, c)
    case Rep(a, lo, _) => lo > 0 && Needs(a, c)
  }

  predicate DigitClass(cls: Class) {
    cls == Digit || cls == Range('0', '9')
  }

  predicate StartsInDigit(r: Expr) {
    match r
    case Set(cls) => DigitClass(cls)
    case Then(a, _) => StartsInDigit(a)
    case Or(a, b) => StartsInDigit(a) && StartsInDigit(b)
    case Rep(a, lo, _) => lo > 0 && StartsInDigit(a)
  }

  predicate EndsInDigit(r: Expr) {
    match r
    case Set(cls) => DigitClass(cls)
    case Then(_, b) => EndsInDigit(b)
    case Or(a, b) => EndsInDigit(a) && EndsInDigit(b)
    case Rep(a, lo, _) => lo > 0 && EndsInDigit(a)
  }

  lemma {:induction false} MinLengthSound(tab: Table, r: Expr, u: string)
    requires Matches(tab, r, u)
    ensures |u| >= MinLength(r)
    decreases r
  {
    match r
    case Set(_) =>
    case Or(a, b) => if Matches(tab, a, u) { MinLengthSound(tab, a, u); } else { MinLengthSound(tab, b, u); }
    case Then(a, b) =>
      var k :| 0 <= k <= |u| && Matches(tab, a, u[..k]) && Matches(tab, b, u[k..]);
      MinLengthSound(tab, a, u[..k]);
      MinLengthSound(tab, b, u[k..]);
    case Rep(a, lo, hi) => RepMinLength(tab, a, lo, hi, u);
  }

  lemma {:induction false} RepMinLength(tab: Table, a: Expr, lo: nat, hi: Limit, u: string)
    requires MatchesRep(tab, a, lo, hi, u)
    ensures |u| >= lo
    decreases |u|
  {
    if !(lo == 0 && u == "") {
      var k :| 0 < k <= |u| && Matches(tab, a, u[..k]) && MatchesRep(tab, a, Pred(lo), hi.Less(), u[k..]);
      RepMinLength(tab, a, Pred(lo), hi.Less(), u[k..]);
    }
  }

  lemma {:induction false} UsesSound(tab: Table, r: Expr, u: string)
    requires Matches(tab, r, u)
    ensures forall c | c in u :: Uses(tab, r, c)
    decreases r, 0
  {
    match r
    case Set(cls) => AtomsSound(tab, cls, u[0]);
    case Or(a, b) => if Matches(tab, a, u) { UsesSound(tab, a, u); } else { UsesSound(tab, b, u); }
    case Then(a, b) =>
      var k :| 0 <= k <= |u| && Matches(tab, a, u[..k]) && Matches(tab, b, u[k..]);
      UsesSound(tab, a, u[..k]);
      UsesSound(tab, b, u[k..]);
      assert u == u[..k] + u[k..];
    case Rep(a, lo, hi) => RepUses(tab, a, lo, hi, u);
  }

  lemma {:induction false} RepUses(tab: Table, a: Expr, lo: nat, hi: Limit, u: string)
    requires MatchesRep(tab, a, lo, hi, u)
    ensures forall c | c in u :: Uses(tab, a, c)
    decreases a, 1, |u|
  {
    if !(lo == 0 && u == "") {
      var k :| 0 < k <= |u| && Matches(tab, a, u[..k]) && MatchesRep(tab, a, Pred(lo), hi.Less(), u[k..]);
      UsesSound(tab, a, u[..k]);
      RepUses(tab, a, Pred(lo), hi.Less(), u[k..]);
      assert u == u[..k] + u[k..];
    }
  }

  lemma {:induction false} NeedsSound(tab: Table, r: Expr, u: string, c: char)
    requires Matches(tab, r, u) && Needs(r, c)
    ensures c in u
    decreases r
  {
    match r
    case Set(_) =>
    case Or(a, b) => if Matches(tab, a, u) { NeedsSound(tab, a, u, c); } else { NeedsSound(tab, b, u, c); }
    case Then(a, b) =>
      var k :| 0 <= k <= |u| && Matches(tab, a, u[..k]) && Matches(tab, b, u[k..]);
      if Needs(a, c) { NeedsSound(tab, a, u[..k], c); } else { NeedsSound(tab, b, u[k..], c); }
    case Rep(a, lo, hi) =>
      var k :| 0 < k <= |u| && Matches(tab, a, u[..k]) && MatchesRep(tab, a, Pred(lo), hi.Less(), u[k..]);
      NeedsSound(tab, a, u[..k], c);
  }

  lemma {:induction false} StartsInDigitSound(tab: Table, r: Expr, u: string)
    requires Matches(tab, r, u) && StartsInDigit(r)
    ensures u != "" && tab.word(u[0])
    decreases r
  {
    match r
    case Set(_) =>
    case Or(a, b) => if Matches(tab, a, u) { StartsInDigitSound(tab, a, u); } else { StartsInDigitSound(tab, b, u); }
    case Then(a, b) =>
      var k :| 0 <= k <= |u| && Matches(tab, a, u[..k]) && Matches(tab, b, u[k..]);
      StartsInDigitSound(tab, a, u[..k]);
    case Rep(a, lo, hi) =>
      var k :| 0 < k <= |u| && Matches(tab, a, u[..k]) && MatchesRep(tab, a, Pred(lo), hi.Less(), u[k..]);
      StartsInDigitSound(tab, a, u[..k]);
  }

  lemma {:induction false} EndsInDigitSound(tab: Table, r: Expr, u: string)
    requires Matches(tab, r, u) && EndsInDigit(r)
    ensures u != "" && tab.word(u[|u| - 1])
    decreases r, 0
  {
    match r
    case Set(_) =>
    case Or(a, b) => if Matches(tab, a, u) { EndsInDigitSound(tab, a, u); } else { EndsInDigitSound(tab, b, u); }
    case Then(a, b) =>
      var k :| 0 <= k <= |u| && Matches(tab, a, u[..k]) && Matches(tab, b, u[k..]);
      EndsInDigitSound(tab, b, u[k..]);
    case Rep(a, lo, hi) => RepEndsInDigit(tab, a, lo, hi, u);
  }

  lemma {:induction false} RepEndsInDigit(tab: Table, a: Expr, lo: nat, hi: Limit, u: string)
    requires MatchesRep(tab, a, lo, hi, u) && EndsInDigit(a) && (lo > 0 || u != "")
    ensures u != "" && tab.word(u[|u| - 1])
    decreases a, 1, |u|
  {
    var k :| 0 < k <= |u| && Matches(tab, a, u[..k]) && MatchesRep(tab, a, Pred(lo), hi.Less(), u[k..]);
    if k == |u| {
      assert u[..k] == u;
      EndsInDigitSound(tab, a, u);
    } else {
      RepEndsInDigit(tab, a, Pred(lo), hi.Less(), u[k..]);
    }
  }
}
