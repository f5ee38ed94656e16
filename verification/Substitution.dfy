/**
  Replacing bracketed placeholders in a text: `str::replace`, and the texts that sit between an original
  and its tokenised form.
*/
module Substitution {
  import opened PiiPatterns

  /** Rust's `str::replace` for a non-empty `p`: leftmost, non-overlapping, not rescanned. */
  function Replace(t: string, p: string, o: string): string
    requires p != ""
  {
    if t == "" then ""
    else if p <= t then o + Replace(t[|p|..], p, o)
    else [t[0]] + Replace(t[1..], p, o)
  }

  /** How many times `Replace` fires. */
  function Count(t: string, p: string): nat
    requires p != ""
  {
    if t == "" then 0
    else if p <= t then 1 + Count(t[|p|..], p)
    else Count(t[1..], p)
  }

  ghost predicate OccursAt(t: string, p: string, i: nat) {
    i + |p| <= |t| && t[i..i + |p|] == p
  }

  ghost predicate Occurs(t: string, p: string) {
    exists i: nat :: OccursAt(t, p, i)
  }

  // -------------------------------------------------------------------------
  // Bracketed strings cannot overlap
  // -------------------------------------------------------------------------

  lemma {:induction false} ShorterBracketedPrefix(p: string, q: string, t: string)
    requires Bracketed(p) && Bracketed(q) && p <= t && q <= t && |p| <= |q|
    ensures p == q
  {
    assert q[|p| - 1] == t[|p| - 1] == p[|p| - 1];
    assert q[..|p|] == t[..|p|] == p;
  }

  lemma {:induction false} BracketedPrefixesEqual(p: string, q: string, t: string)
    requires Bracketed(p) && Bracketed(q) && p <= t && q <= t
    ensures p == q
  {
    if |p| <= |q| { ShorterBracketedPrefix(p, q, t); } else { ShorterBracketedPrefix(q, p, t); }
  }

  /** A text without `p` stays as it is; in any other the first occurrence goes, and the search goes on after it. */
  lemma {:induction false} ReplaceTakesFirst(t: string, p: string, o: string, i: nat)
    requires p != "" && forall k: nat | k < i :: !OccursAt(t, p, k)
    ensures i == |t| ==> Replace(t, p, o) == t
    ensures OccursAt(t, p, i) ==> Replace(t, p, o) == t[..i] + o + Replace(t[i + |p|..], p, o)
  {
    hide Replace, OccursAt;
    if i == 0 {
      ReplaceHere(t, p, o);
    } else if i <= |t| {
      var rest := t[1..];
      forall k: nat | k < |t|
        ensures OccursAt(rest, p, k) <==> OccursAt(t, p, k + 1)
      {
        SameAfterFirst(t, p, k);
      }
      ReplaceTakesFirst(rest, p, o, i - 1);
      ReplaceCopies(t, p, o);
      assert [t[0]] + rest == t && [t[0]] + rest[..i - 1] == t[..i];
      if OccursAt(t, p, i) {
        OccurrenceFits(t, p, i);
        assert rest[i - 1 + |p|..] == t[i + |p|..];
        Regroup([t[0]], rest[..i - 1], o, Replace(t[i + |p|..], p, o));
      }
    } else if OccursAt(t, p, i) {
      OccurrenceFits(t, p, i);
    }
  }

  lemma {:induction false} Regroup(a: string, b: string, c: string, d: string)
    ensures a + (b + c + d) == a + b + c + d
  {
  }

  lemma {:induction false} ReplaceHere(t: string, p: string, o: string)
    requires p != ""
    ensures t == "" ==> Replace(t, p, o) == t
    ensures OccursAt(t, p, 0) ==> Replace(t, p, o) == t[..0] + o + Replace(t[0 + |p|..], p, o)
  {
  }

  lemma {:induction false} SameAfterFirst(t: string, p: string, k: nat)
    requires k < |t|
    ensures OccursAt(t[1..], p, k) <==> OccursAt(t, p, k + 1)
  {
    if k + 1 + |p| <= |t| { assert t[1..][k..k + |p|] == t[k + 1..k + 1 + |p|]; }
  }

  lemma {:induction false} ReplaceCopies(t: string, p: string, o: string)
    requires p != "" && t != "" && !OccursAt(t, p, 0)
    ensures Replace(t, p, o) == [t[0]] + Replace(t[1..], p, o)
  {
  }

  lemma {:induction false} OccurrenceFits(t: string, p: string, i: nat)
    requires OccursAt(t, p, i)
    ensures i + |p| <= |t|
  {
  }

  /** A stretch in which `p` cannot start is copied by `Replace` and ignored by `Count`. */
  lemma {:induction false} SkipStretch(a: string, b: string, p: string, o: string)
    requires Bracketed(p)
    requires forall i | 0 <= i < |a| :: a[i] != '['
    ensures Replace(a + b, p, o) == a + Replace(b, p, o)
    ensures Count(a + b, p) == Count(b, p)
  {
    if a == "" {
      assert a + b == b;
    } else {
      assert (a + b)[0] != '[';
      assert (a + b)[1..] == a[1..] + b;
      SkipStretch(a[1..], b, p, o);
    }
  }

  lemma {:induction false} SkipOther(q: string, b: string, p: string, o: string)
    requires Bracketed(p) && Bracketed(q) && p != q
    ensures Replace(q + b, p, o) == q + Replace(b, p, o)
    ensures Count(q + b, p) == Count(b, p)
  {
    if p <= q + b {
      BracketedPrefixesEqual(p, q, q + b);
    }
    assert (q + b)[1..] == q[1..] + b;
    SkipStretch(q[1..], b, p, o);
    assert [q[0]] + q[1..] == q;
  }

  lemma {:induction false} SkipSelf(b: string, p: string, o: string)
    requires p != ""
    ensures Replace(p + b, p, o) == o + Replace(b, p, o)
    ensures Count(p + b, p) == 1 + Count(b, p)
  {
    assert (p + b)[|p|..] == b;
  }

  // -------------------------------------------------------------------------
  // Texts with holes
  // -------------------------------------------------------------------------

  datatype Entry = Entry(placeholder: string, original: string)

  /** One character of the user's text, or a match that a placeholder stands for. */
  datatype Item = Keep(c: char) | Hole(entry: Entry)

  function Shown(item: Item): string {
    match item
    case Keep(c) => [c]
    case Hole(e) => e.placeholder
  }

  function Meant(item: Item): string {
    match item
    case Keep(c) => [c]
    case Hole(e) => e.original
  }

  /** The working text. */
  function Render(items: seq<Item>): string {
    if items == [] then "" else Shown(items[0]) + Render(items[1..])
  }

  /** The user's text. */
  function Source(items: seq<Item>): string {
    if items == [] then "" else Meant(items[0]) + Source(items[1..])
  }

  function Holes(items: seq<Item>): multiset<Entry> {
    if items == [] then multiset{}
    else if items[0].Hole? then multiset{items[0].entry} + Holes(items[1..])
    else Holes(items[1..])
  }

  ghost predicate GoodEntry(e: Entry) {
    Bracketed(e.placeholder) && e.original != "" && BracketFree(e.original)
  }

  ghost predicate Good(items: seq<Item>) {
    forall e | e in Holes(items) :: GoodEntry(e)
  }

  lemma {:induction false} RenderConcat(a: seq<Item>, b: seq<Item>)
    ensures Render(a + b) == Render(a) + Render(b)
  {
    if a == [] {
      assert a + b == b;
    } else {
      assert (a + b)[1..] == a[1..] + b;
      RenderConcat(a[1..], b);
    }
  }

  lemma {:induction false} SourceConcat(a: seq<Item>, b: seq<Item>)
    ensures Source(a + b) == Source(a) + Source(b)
  {
    if a == [] {
      assert a + b == b;
    } else {
      assert (a + b)[1..] == a[1..] + b;
      SourceConcat(a[1..], b);
    }
  }

  lemma {:induction false} HolesConcat(a: seq<Item>, b: seq<Item>)
    ensures Holes(a + b) == Holes(a) + Holes(b)
  {
    if a == [] {
      assert a + b == b;
    } else {
      assert (a + b)[1..] == a[1..] + b;
      HolesConcat(a[1..], b);
    }
  }

  function Keeps(s: string): (items: seq<Item>)
    ensures |items| == |s|
    ensures forall i | 0 <= i < |s| :: items[i] == Keep(s[i])
  {
    seq(|s|, i requires 0 <= i < |s| => Keep(s[i]))
  }

  lemma {:induction false} RenderKeeps(s: string)
    ensures Render(Keeps(s)) == s && Source(Keeps(s)) == s && Holes(Keeps(s)) == multiset{}
  {
    if s != "" {
      assert Keeps(s)[1..] == Keeps(s[1..]);
      RenderKeeps(s[1..]);
    }
  }

  lemma {:induction false} KeepsPrefix(s: string, rest: seq<Item>)
    ensures Render(Keeps(s) + rest) == s + Render(rest)
    ensures Source(Keeps(s) + rest) == s + Source(rest)
    ensures Holes(Keeps(s) + rest) == Holes(rest)
  {
    RenderKeeps(s);
    RenderConcat(Keeps(s), rest);
    SourceConcat(Keeps(s), rest);
    HolesConcat(Keeps(s), rest);
  }

  lemma {:induction false} TailHoles(items: seq<Item>)
    requires items != []
    ensures Holes(items[1..]) <= Holes(items)
  {
  }

  lemma {:induction false} FrontKept(items: seq<Item>)
    requires Good(items) && Render(items) != "" && Render(items)[0] != '['
    ensures items != [] && items[0] == Keep(Render(items)[0])
    ensures Render(items)[1..] == Render(items[1..])
    ensures Good(items[1..])
  {
    if items[0].Hole? {
      assert items[0].entry in Holes(items);
    }
    TailHoles(items);
  }

  /** A stretch of the working text with no opening bracket is the user's own text. */
  lemma {:induction false} OpenFreePrefixKept(items: seq<Item>, s: string)
    requires Good(items) && s <= Render(items)
    requires forall i | 0 <= i < |s| :: s[i] != '['
    ensures |s| <= |items| && items == Keeps(s) + items[|s|..]
  {
    if s != "" {
      var t := Render(items);
      assert t[0] == s[0];
      FrontKept(items);
      var rest := items[1..];
      PrefixTail(s, t);
      OpenFreePrefixKept(rest, s[1..]);
      ConsKeeps(items, s);
    }
  }

  lemma {:induction false} PrefixTail(s: string, t: string)
    requires s != "" && s <= t
    ensures s[1..] <= t[1..]
  {
    assert t[..|s|] == s;
    assert t[1..][..|s| - 1] == s[1..];
  }

  lemma {:induction false} ConsKeeps(items: seq<Item>, s: string)
    requires s != "" && items != [] && items[0] == Keep(s[0])
    requires |s| <= |items| && items[1..] == Keeps(s[1..]) + items[1..][|s| - 1..]
    ensures items == Keeps(s) + items[|s|..]
  {
    assert items[1..][|s| - 1..] == items[|s|..];
    assert Keeps(s) == [Keep(s[0])] + Keeps(s[1..]);
    assert items == [items[0]] + items[1..];
  }

  // -------------------------------------------------------------------------
  // Replacing a placeholder that the user did not write restores its matches
  // -------------------------------------------------------------------------

  function Restore(items: seq<Item>, p: string): seq<Item> {
    if items == [] then []
    else if items[0].Hole? && items[0].entry.placeholder == p then
      Keeps(items[0].entry.original) + Restore(items[1..], p)
    else [items[0]] + Restore(items[1..], p)
  }

  lemma {:induction false} RestoreMeaning(items: seq<Item>, p: string)
    ensures Source(Restore(items, p)) == Source(items)
    ensures Holes(Restore(items, p)) <= Holes(items)
    ensures forall e | e in Holes(items) :: e in Holes(Restore(items, p)) <==> e.placeholder != p
  {
    if items != [] {
      RestoreMeaning(items[1..], p);
      if items[0].Hole? && items[0].entry.placeholder == p {
        KeepsPrefix(items[0].entry.original, Restore(items[1..], p));
      } else {
        assert ([items[0]] + Restore(items[1..], p))[1..] == Restore(items[1..], p);
      }
    }
  }

  lemma {:induction false} OccursLater(t: string, p: string, k: nat)
    requires k <= |t| && Occurs(t[k..], p)
    ensures Occurs(t, p)
  {
    var i: nat :| OccursAt(t[k..], p, i);
    assert OccursAt(t, p, k + i);
  }

  /** If `p` starts the working text at one of the user's characters, the user wrote `p`. */
  lemma {:induction false} KeptPrefix(items: seq<Item>, p: string)
    requires Good(items) && Bracketed(p)
    requires items != [] && items[0].Keep? && p <= Render(items)
    ensures |p| <= |items| && items == Keeps(p) + items[|p|..]
  {
    TailHoles(items);
    assert Render(items) == [items[0].c] + Render(items[1..]);
    assert Render(items)[1..] == Render(items[1..]);
    PrefixTail(p, Render(items));
    TailOpenFree(p);
    OpenFreePrefixKept(items[1..], p[1..]);
    ConsKeeps(items, p);
  }

  lemma {:induction false} TailOpenFree(p: string)
    requires Bracketed(p)
    ensures forall i | 0 <= i < |p[1..]| :: p[1..][i] != '['
  {
  }

  lemma {:induction false} KeptPrefixOccurs(items: seq<Item>, p: string)
    requires Good(items) && Bracketed(p)
    requires items != [] && items[0].Keep? && p <= Render(items)
    ensures Occurs(Source(items), p)
  {
    KeptPrefix(items, p);
    KeepsPrefix(p, items[|p|..]);
    assert OccursAt(Source(items), p, 0);
  }

  lemma {:induction false} ReplaceRestores(items: seq<Item>, p: string, o: string)
    requires Good(items) && Bracketed(p) && !Occurs(Source(items), p)
    requires forall e | e in Holes(items) && e.placeholder == p :: e.original == o
    ensures Replace(Render(items), p, o) == Render(Restore(items, p))
  {
    if items != [] {
      var rest := items[1..];
      TailHoles(items);
      assert Source(items)[|Meant(items[0])|..] == Source(rest);
      if Occurs(Source(rest), p) {
        OccursLater(Source(items), p, |Meant(items[0])|);
      }
      ReplaceRestores(rest, p, o);
      match items[0]
      case Keep(c) =>
        if p <= Render(items) {
          KeptPrefixOccurs(items, p);
        }
        assert Render(items)[1..] == Render(rest);
        assert ([items[0]] + Restore(rest, p))[1..] == Restore(rest, p);
      case Hole(e) =>
        assert e in Holes(items);
        if e.placeholder == p {
          SkipSelf(Render(rest), p, o);
          KeepsPrefix(o, Restore(rest, p));
        } else {
          SkipOther(e.placeholder, Render(rest), p, o);
          assert ([items[0]] + Restore(rest, p))[1..] == Restore(rest, p);
        }
    }
  }

  // -------------------------------------------------------------------------
  // Counting: how much `Replace` takes away
  // -------------------------------------------------------------------------

  function Opens(t: string): nat {
    if t == "" then 0 else (if t[0] == '[' then 1 else 0) + Opens(t[1..])
  }

  lemma {:induction false} OpensConcat(a: string, b: string)
    ensures Opens(a + b) == Opens(a) + Opens(b)
  {
    if a == "" {
      assert a + b == b;
    } else {
      assert (a + b)[1..] == a[1..] + b;
      OpensConcat(a[1..], b);
    }
  }

  lemma {:induction false} NoOpens(a: string)
    requires forall i | 0 <= i < |a| :: a[i] != '['
    ensures Opens(a) == 0
  {
    if a != "" { NoOpens(a[1..]); }
  }

  lemma {:induction false} BracketedOpens(p: string)
    requires Bracketed(p)
    ensures Opens(p) == 1
  {
    NoOpens(p[1..]);
  }

  lemma {:induction false} ReplaceTakesOpens(t: string, p: string, o: string)
    requires Bracketed(p) && BracketFree(o)
    ensures Opens(t) == Opens(Replace(t, p, o)) + Count(t, p)
  {
    if t != "" {
      if p <= t {
        assert t == p + t[|p|..];
        OpensConcat(p, t[|p|..]);
        BracketedOpens(p);
        OpensConcat(o, Replace(t[|p|..], p, o));
        NoOpens(o);
        ReplaceTakesOpens(t[|p|..], p, o);
      } else {
        ReplaceTakesOpens(t[1..], p, o);
        OpensConcat([t[0]], Replace(t[1..], p, o));
      }
    }
  }

  /** Adding a character in front cannot lose occurrences. */
  lemma {:induction false} CountPrepend(c: char, t: string, p: string)
    requires Bracketed(p)
    ensures Count([c] + t, p) >= Count(t, p)
  {
    var s := [c] + t;
    assert s[1..] == t;
    if p <= s {
      var inside := p[1..];
      assert t == inside + s[|p|..];
      SkipStretch(inside, s[|p|..], p, "");
    }
  }

  /** Replacing one placeholder never removes occurrences of another. */
  lemma {:induction false} ReplaceKeepsOthers(t: string, q: string, o: string, p: string)
    requires Bracketed(p) && Bracketed(q) && p != q && BracketFree(o)
    ensures Count(Replace(t, q, o), p) >= Count(t, p)
  {
    if t != "" {
      if q <= t {
        var rest := t[|q|..];
        assert t == q + rest;
        SkipOther(q, rest, p, "");
        SkipStretch(o, Replace(rest, q, o), p, "");
        ReplaceKeepsOthers(rest, q, o, p);
      } else if p <= t {
        var rest := t[|p|..];
        assert t == p + rest;
        SkipOther(p, rest, q, o);
        SkipSelf(Replace(rest, q, o), p, "");
        ReplaceKeepsOthers(rest, q, o, p);
      } else {
        ReplaceKeepsOthers(t[1..], q, o, p);
        CountPrepend(t[0], Replace(t[1..], q, o), p);
      }
    }
  }

  function HoleCount(items: seq<Item>, p: string): nat {
    if items == [] then 0
    else (if items[0].Hole? && items[0].entry.placeholder == p then 1 else 0) + HoleCount(items[1..], p)
  }

  lemma {:induction false} HoleCountTail(items: seq<Item>, l: nat, p: string)
    requires l <= |items| && forall i | 0 <= i < l :: items[i].Keep?
    ensures HoleCount(items, p) == HoleCount(items[l..], p)
  {
    if l > 0 {
      HoleCountTail(items[1..], l - 1, p);
      assert items[1..][l - 1..] == items[l..];
    }
  }

  /** No match that was taken out is a piece of the inside of `p`. */
  ghost predicate NoHoleInside(items: seq<Item>, p: string) {
    forall e, k, j | e in Holes(items) && 0 < k < j < |p| :: e.original != p[k..j]
  }

  /** An occurrence of `p` in the user's text survives in the working text. */
  lemma {:induction false} WrittenPrefixKept(items: seq<Item>, p: string, k: nat)
    requires Good(items) && Bracketed(p) && NoHoleInside(items, p)
    requires 0 < k <= |p| && p[k..] <= Source(items)
    ensures p[k..] <= Render(items)
  {
    if k < |p| {
      var rest := items[1..];
      TailHoles(items);
      if items[0].Hole? {
        WrittenOverHole(items, p, k);
      }
      var c := items[0].c;
      assert Source(items) == [c] + Source(rest);
      assert p[k..] == [c] + p[k + 1..];
      assert p[k + 1..] <= Source(rest) by {
        assert Source(rest) == Source(items)[1..];
        assert p[k + 1..] == p[k..][1..];
      }
      WrittenPrefixKept(rest, p, k + 1);
      assert Render(items) == [c] + Render(rest);
    }
  }

  lemma {:induction false} WrittenOverHole(items: seq<Item>, p: string, k: nat)
    requires Good(items) && Bracketed(p) && items != [] && items[0].Hole?
    requires 0 < k < |p| && p[k..] <= Source(items)
    ensures !NoHoleInside(items, p)
  {
    var o := items[0].entry.original;
    assert items[0].entry in Holes(items);
    BracketFreePrefix(o, p[k..], Source(items));
    assert o == p[k..][..|o|] == p[k..k + |o|];
  }

  lemma {:induction false} BracketFreePrefix(o: string, q: string, t: string)
    requires BracketFree(o) && o <= t && q <= t && q != "" && q[|q| - 1] == ']'
    ensures |o| < |q| && o == q[..|o|]
  {
    assert q[|q| - 1] == t[|q| - 1];
    assert o == t[..|o|] && q == t[..|q|];
  }

  /** Every hole counts, and so does an occurrence the user wrote. */
  lemma {:induction false} CountAtLeast(items: seq<Item>, p: string)
    requires Good(items) && Bracketed(p) && NoHoleInside(items, p)
    ensures Count(Render(items), p) >= HoleCount(items, p) + if Occurs(Source(items), p) then 1 else 0
    decreases |items|
  {
    if items != [] {
      var rest := items[1..];
      TailHoles(items);
      if items[0].Hole? {
        var e := items[0].entry;
        assert e in Holes(items);
        CountAtLeast(rest, p);
        if e.placeholder == p { SkipSelf(Render(rest), p, ""); } else { SkipOther(e.placeholder, Render(rest), p, ""); }
        if Occurs(Source(items), p) {
          OccursBeyond(e.original, Source(rest), p);
        }
      } else if p <= Render(items) {
        KeptPrefix(items, p);
        CountWritten(items, p);
        CountAtLeast(items[|p|..], p);
      } else {
        assert Render(items) == [items[0].c] + Render(rest);
        assert Render(items)[1..] == Render(rest);
        CountAtLeast(rest, p);
        if Occurs(Source(items), p) {
          NotAtFront(items, p);
        }
      }
    }
  }

  lemma {:induction false} CountWritten(items: seq<Item>, p: string)
    requires p != "" && |p| <= |items| && items == Keeps(p) + items[|p|..]
    ensures Count(Render(items), p) == 1 + Count(Render(items[|p|..]), p)
    ensures HoleCount(items, p) == HoleCount(items[|p|..], p)
    ensures Holes(items) == Holes(items[|p|..])
  {
    KeepsPrefix(p, items[|p|..]);
    SkipSelf(Render(items[|p|..]), p, "");
    HoleCountTail(items, |p|, p);
  }

  lemma {:induction false} OccursBeyond(a: string, b: string, p: string)
    requires Bracketed(p) && BracketFree(a) && Occurs(a + b, p)
    ensures Occurs(b, p)
  {
    var i: nat :| OccursAt(a + b, p, i);
    assert (a + b)[i] == '[' by {
      assert (a + b)[i..i + |p|][0] == p[0];
    }
    assert b[i - |a|..i - |a| + |p|] == (a + b)[i..i + |p|];
    assert OccursAt(b, p, i - |a|);
  }

  lemma {:induction false} NotAtFront(items: seq<Item>, p: string)
    requires Good(items) && Bracketed(p) && NoHoleInside(items, p)
    requires items != [] && items[0].Keep? && Occurs(Source(items), p)
    ensures p <= Render(items) || Occurs(Source(items[1..]), p)
  {
    var rest := items[1..];
    var s := Source(items);
    assert s == [items[0].c] + Source(rest);
    var i: nat :| OccursAt(s, p, i);
    if i == 0 {
      NotAtFrontZero(items, p);
    } else {
      assert s[1..] == Source(rest);
      OccursInTail(s, p, i);
    }
  }

  lemma {:induction false} OccursInTail(s: string, p: string, i: nat)
    requires i > 0 && p != "" && OccursAt(s, p, i)
    ensures Occurs(s[1..], p)
  {
    assert s[1..][i - 1..i - 1 + |p|] == s[i..i + |p|];
    assert OccursAt(s[1..], p, i - 1);
  }

  lemma {:induction false} NotAtFrontZero(items: seq<Item>, p: string)
    requires Good(items) && Bracketed(p) && NoHoleInside(items, p)
    requires items != [] && items[0].Keep? && OccursAt(Source(items), p, 0)
    ensures p <= Render(items)
  {
    TailHoles(items);
    assert Source(items)[1..] == Source(items[1..]);
    PrefixTail(p, Source(items));
    WrittenPrefixKept(items[1..], p, 1);
    assert Render(items) == [p[0]] + Render(items[1..]);
    assert p == [p[0]] + p[1..];
  }
}
