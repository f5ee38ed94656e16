/** A match never looks past the next opening bracket, so what a pass finds does not depend on the ids drawn. */
module PiiLocality {
  import opened Regex
  import opened PiiPatterns
  import opened Substitution
  import opened Tokeniser
  import opened PiiTheorems

  ghost predicate OpenFree(u: string) {
    forall i | 0 <= i < |u| :: u[i] != '['
  }

  ghost predicate BracketFreeClasses(r: Expr) {
    forall cls | cls in ClassesOf(r) :: WithoutBrackets(cls)
  }

  /** The same text up to its first opening bracket, or altogether. */
  function Cut(u: string, x: string): string {
    u + ("[" + x)
  }

  lemma {:induction false} CutDrop(u: string, x: string, k: nat)
    requires k <= |u| && OpenFree(u)
    ensures Cut(u, x)[k..] == Cut(u[k..], x) && OpenFree(u[k..])
  {
  }

  // -------------------------------------------------------------------------
  // The search
  // -------------------------------------------------------------------------

  lemma {:induction false} NoOpenInClass(tab: Table, cls: Class)
    requires forall a | a in Atoms(cls) :: WithoutBrackets(a)
    ensures !In(tab, cls, '[')
  {
    if In(tab, cls, '[') {
      AtomsSound(tab, cls, '[');
      var a :| a in Atoms(cls) && In(tab, a, '[');
      WithoutBracketsSound(tab, a, '[');
    }
  }

  lemma {:induction false} LengthsLocal(tab: Table, r: Expr, u: string, x: string, y: string)
    requires BracketFreeClasses(r) && OpenFree(u)
    ensures Lengths(tab, r, Cut(u, x)) == Lengths(tab, r, Cut(u, y))
    ensures Within(Lengths(tab, r, Cut(u, x)), |u|)
    decreases r, 0, 0, 0, 0
  {
    match r
    case Set(cls) =>
      NoOpenInClass(tab, cls);
      if u != "" { assert Cut(u, x)[0] == u[0] == Cut(u, y)[0]; }
    case Or(a, b) =>
      LengthsLocal(tab, a, u, x, y);
      LengthsLocal(tab, b, u, x, y);
    case Then(a, b) =>
      LengthsLocal(tab, a, u, x, y);
      ThenLocal(tab, Lengths(tab, a, Cut(u, x)), b, u, x, y);
    case Rep(a, lo, hi) =>
      RepLocal(tab, a, lo, hi, u, x, y);
  }

  lemma {:induction false} ThenLocal(tab: Table, firsts: seq<nat>, b: Expr, u: string, x: string, y: string)
    requires BracketFreeClasses(b) && OpenFree(u) && Within(firsts, |u|)
    ensures ThenLengths(tab, firsts, b, Cut(u, x)) == ThenLengths(tab, firsts, b, Cut(u, y))
    ensures Within(ThenLengths(tab, firsts, b, Cut(u, x)), |u|)
    decreases b, 2, 0, 0, |firsts|
  {
    if firsts != [] {
      var k := firsts[0];
      CutDrop(u, x, k);
      CutDrop(u, y, k);
      LengthsLocal(tab, b, u[k..], x, y);
      ThenLocal(tab, firsts[1..], b, u, x, y);
    }
  }

  lemma {:induction false} RepLocal(tab: Table, a: Expr, lo: nat, hi: Limit, u: string, x: string, y: string)
    requires BracketFreeClasses(a) && OpenFree(u)
    ensures RepLengths(tab, a, lo, hi, Cut(u, x)) == RepLengths(tab, a, lo, hi, Cut(u, y))
    ensures Within(RepLengths(tab, a, lo, hi, Cut(u, x)), |u|)
    decreases a, 1, |u|, 1, 0
  {
    if hi.Positive() {
      LengthsLocal(tab, a, u, x, y);
      RepEachLocal(tab, Lengths(tab, a, Cut(u, x)), a, Pred(lo), hi.Less(), u, x, y);
    }
  }

  lemma {:induction false} RepEachLocal(
    tab: Table, firsts: seq<nat>, a: Expr, lo: nat, hi: Limit, u: string, x: string, y: string)
    requires BracketFreeClasses(a) && OpenFree(u) && Within(firsts, |u|)
    ensures RepEach(tab, firsts, a, lo, hi, Cut(u, x)) == RepEach(tab, firsts, a, lo, hi, Cut(u, y))
    ensures Within(RepEach(tab, firsts, a, lo, hi, Cut(u, x)), |u|)
    decreases a, 1, |u|, 0, |firsts|
  {
    if firsts != [] {
      var k := firsts[0];
      RepEachLocal(tab, firsts[1..], a, lo, hi, u, x, y);
      if k > 0 {
        CutDrop(u, x, k);
        CutDrop(u, y, k);
        RepLocal(tab, a, lo, hi, u[k..], x, y);
      }
    }
  }

  lemma {:induction false} PickLocal(tab: Table, p: Pattern, left: bool, u: string, x: string, y: string, ls: seq<nat>)
    requires Within(ls, |u|)
    ensures Pick(tab, p, left, Cut(u, x), ls) == Pick(tab, p, left, Cut(u, y), ls)
  {
    if ls != [] {
      PickLocal(tab, p, left, u, x, y, ls[1..]);
      var l := ls[0];
      if l > 0 {
        assert Cut(u, x)[0] == Cut(u, y)[0] && Cut(u, x)[l - 1] == Cut(u, y)[l - 1] && Cut(u, x)[l] == Cut(u, y)[l];
      }
    }
  }

  /** What the search finds at the front of a text depends only on what precedes the first opening bracket. */
  lemma {:induction false} MatchLengthLocal(tab: Table, p: Pattern, left: bool, u: string, x: string, y: string)
    requires p in PATTERNS && OpenFree(u)
    ensures MatchLength(tab, p, left, Cut(u, x)) == MatchLength(tab, p, left, Cut(u, y))
  {
    hide PATTERNS;
    PatternClasses(p);
    LengthsLocal(tab, p.body, u, x, y);
    PickLocal(tab, p, left, u, x, y, Lengths(tab, p.body, Cut(u, x)));
  }

  // -------------------------------------------------------------------------
  // Two runs over one text
  // -------------------------------------------------------------------------

  /** The same original behind placeholders of one label. */
  ghost predicate SameLabel(a: Entry, b: Entry) {
    && a.original == b.original
    && exists name, ida, idb | name in LABELS ::
        a.placeholder == Placeholder(name, ida) && b.placeholder == Placeholder(name, idb)
  }

  ghost predicate AlikeItem(a: Item, b: Item) {
    if a.Keep? then a == b else b.Hole? && SameLabel(a.entry, b.entry)
  }

  ghost predicate Alike(a: seq<Item>, b: seq<Item>) {
    |a| == |b| && forall i | 0 <= i < |a| :: AlikeItem(a[i], b[i])
  }

  ghost predicate AlikeLogs(a: seq<Entry>, b: seq<Entry>) {
    |a| == |b| && forall i | 0 <= i < |a| :: SameLabel(a[i], b[i])
  }

  lemma {:induction false} PlaceholderOpens(name: string, id: Id)
    ensures Placeholder(name, id) == "[" + Placeholder(name, id)[1..]
  {
  }

  ghost predicate SameUpToOpen(s: string, t: string, u: string, x: string, y: string) {
    OpenFree(u) && (s == t || (s == Cut(u, x) && t == Cut(u, y)))
  }

  lemma {:induction false} AlikeHoles(a: seq<Item>, b: seq<Item>) returns (x: string, y: string)
    requires a != [] && b != [] && a[0].Hole? && AlikeItem(a[0], b[0])
    ensures SameUpToOpen(Render(a), Render(b), "", x, y)
  {
    var name, ida, idb :| name in LABELS && a[0].entry.placeholder == Placeholder(name, ida)
                            && b[0].entry.placeholder == Placeholder(name, idb);
    var p, q := Placeholder(name, ida), Placeholder(name, idb);
    PlaceholderOpens(name, ida);
    PlaceholderOpens(name, idb);
    x := p[1..] + Render(a[1..]);
    y := q[1..] + Render(b[1..]);
    hide Placeholder;
    assert p + Render(a[1..]) == Cut("", x) && q + Render(b[1..]) == Cut("", y);
  }

  lemma {:induction false} AlikeOpens(a: seq<Item>, b: seq<Item>)
    requires a != [] && b != [] && a[0].Keep? && a[0].c == '[' && a[0] == b[0]
    ensures SameUpToOpen(Render(a), Render(b), "", Render(a[1..]), Render(b[1..]))
  {
    assert Render(a) == Cut("", Render(a[1..])) && Render(b) == Cut("", Render(b[1..]));
  }

  lemma {:induction false} AlikeCons(a: seq<Item>, b: seq<Item>, v: string, x: string, y: string)
    requires a != [] && b != [] && a[0].Keep? && a[0].c != '[' && a[0] == b[0]
    requires SameUpToOpen(Render(a[1..]), Render(b[1..]), v, x, y)
    ensures SameUpToOpen(Render(a), Render(b), [a[0].c] + v, x, y)
  {
    var u := [a[0].c] + v;
    assert Cut(u, x) == [a[0].c] + Cut(v, x) && Cut(u, y) == [a[0].c] + Cut(v, y);
  }

  lemma {:induction false} AlikeRest(a: seq<Item>, b: seq<Item>)
    requires Alike(a, b) && a != []
    ensures AlikeItem(a[0], b[0]) && Alike(a[1..], b[1..])
  {
  }

  /** Alike texts are the same, or the same up to their first opening bracket. */
  lemma {:induction false} AlikeTexts(a: seq<Item>, b: seq<Item>) returns (u: string, x: string, y: string)
    requires Alike(a, b)
    ensures SameUpToOpen(Render(a), Render(b), u, x, y)
  {
    u, x, y := "", "", "";
    if a != [] {
      AlikeRest(a, b);
      if a[0].Hole? {
        x, y := AlikeHoles(a, b);
      } else if a[0].c == '[' {
        AlikeOpens(a, b);
        x, y := Render(a[1..]), Render(b[1..]);
      } else {
        var v;
        v, x, y := AlikeTexts(a[1..], b[1..]);
        AlikeCons(a, b, v, x, y);
        u := [a[0].c] + v;
      }
    }
  }

  lemma {:induction false} AlikeMatch(tab: Table, p: Pattern, left: bool, a: seq<Item>, b: seq<Item>)
    requires p in PATTERNS && Alike(a, b)
    ensures MatchLength(tab, p, left, Render(a)) == MatchLength(tab, p, left, Render(b))
  {
    hide MatchLength, PATTERNS, Render, Cut;
    var u, x, y := AlikeTexts(a, b);
    MatchLengthLocal(tab, p, left, u, x, y);
  }

  lemma {:induction false} AlikeJoin(x: Item, a: seq<Item>, y: Item, b: seq<Item>)
    requires AlikeItem(x, y) && Alike(a, b)
    ensures Alike([x] + a, [y] + b)
  {
  }

  lemma {:induction false} AlikeDrop(a: seq<Item>, b: seq<Item>, l: nat)
    requires Alike(a, b) && l <= |a|
    ensures Alike(a[l..], b[l..])
  {
  }

  lemma {:induction false} AlikeLogJoin(x: Entry, a: seq<Entry>, y: Entry, b: seq<Entry>)
    requires SameLabel(x, y) && AlikeLogs(a, b)
    ensures AlikeLogs([x] + a, [y] + b)
  {
  }

  lemma {:induction false} NoLogs()
    ensures AlikeLogs([], [])
  {
  }

  lemma {:induction false} AlikeLogLength(a: seq<Entry>, b: seq<Entry>)
    requires AlikeLogs(a, b)
    ensures |a| == |b|
  {
  }

  lemma {:induction false} AlikeLogConcat(a: seq<Entry>, b: seq<Entry>, c: seq<Entry>, d: seq<Entry>)
    requires AlikeLogs(a, b) && AlikeLogs(c, d)
    ensures AlikeLogs(a + c, b + d)
  {
  }

  lemma {:induction false} LabelOf(name: string, ida: Id, idb: Id, original: string)
    requires name in LABELS
    ensures SameLabel(Entry(Placeholder(name, ida), original), Entry(Placeholder(name, idb), original))
  {
    hide Placeholder;
  }

  /** A matched stretch consists of the user's own characters, so alike texts have the same one. */
  lemma {:induction false} AlikePrefix(a: seq<Item>, b: seq<Item>, u: string, v: string)
    requires Alike(a, b) && |u| == |v| && |u| <= |a| && a[..|u|] == Keeps(u) && b[..|v|] == Keeps(v)
    ensures u == v
  {
    forall i | 0 <= i < |u|
      ensures u[i] == v[i]
    {
      assert a[..|u|][i] == Keep(u[i]) && b[..|v|][i] == Keep(v[i]);
      assert AlikeItem(a[i], b[i]);
    }
  }

  lemma {:induction false} EmptyPass(tab: Table, p: Pattern, left: bool, ids: nat -> Id, n: nat)
    ensures Lifted(tab, PATTERNS, [], [], Pass(tab, p, left, Render([]), ids, n))
    ensures Pass(tab, p, left, Render([]), ids, n).log == []
  {
  }

  /** One pass with two id streams over alike texts: alike texts and logs come out. */
  lemma {:induction false} PassAlike(
    tab: Table, p: Pattern, left: bool, a: seq<Item>, b: seq<Item>, ids: nat -> Id, jds: nat -> Id, n: nat)
    returns (aOut: seq<Item>, bOut: seq<Item>)
    requires AllSeparated(tab, PATTERNS) && p in PATTERNS && Alike(a, b)
    requires AllGenuine(tab, PATTERNS, a) && AllGenuine(tab, PATTERNS, b)
    ensures Lifted(tab, PATTERNS, a, aOut, Pass(tab, p, left, Render(a), ids, n))
    ensures Lifted(tab, PATTERNS, b, bOut, Pass(tab, p, left, Render(b), jds, n))
    ensures Alike(aOut, bOut)
    ensures AlikeLogs(Pass(tab, p, left, Render(a), ids, n).log, Pass(tab, p, left, Render(b), jds, n).log)
    decreases |a|
  {
    hide Matches, MatchLength, Separated, Genuine, Pass, PATTERNS, Lifted, AllGenuine, Placeholder, Render, SameLabel;
    AlikeMatch(tab, p, left, a, b);
    if a == [] {
      EmptyPass(tab, p, left, ids, n);
      EmptyPass(tab, p, left, jds, n);
      aOut, bOut := [], [];
    } else if MatchLength(tab, p, left, Render(a)) == 0 || a[0].Hole? {
      AlikeRest(a, b);
      TailGenuine(tab, PATTERNS, a, 1);
      TailGenuine(tab, PATTERNS, b, 1);
      var next := a[0].Keep? && tab.word(a[0].c);
      var x, y := PassAlike(tab, p, next, a[1..], b[1..], ids, jds, n);
      if a[0].Hole? {
        aOut := PassLiftsHole(tab, PATTERNS, p, left, a, ids, n, x);
        bOut := PassLiftsHole(tab, PATTERNS, p, left, b, jds, n, y);
      } else {
        aOut := PassLiftsCopy(tab, PATTERNS, p, left, a, ids, n, x);
        bOut := PassLiftsCopy(tab, PATTERNS, p, left, b, jds, n, y);
      }
      AlikeJoin(a[0], x, b[0], y);
    } else {
      aOut, bOut := PassAlikeMatch(tab, p, left, a, b, ids, jds, n);
    }
  }

  lemma {:induction false} PassAlikeMatch(
    tab: Table, p: Pattern, left: bool, a: seq<Item>, b: seq<Item>, ids: nat -> Id, jds: nat -> Id, n: nat)
    returns (aOut: seq<Item>, bOut: seq<Item>)
    requires AllSeparated(tab, PATTERNS) && p in PATTERNS && Alike(a, b)
    requires AllGenuine(tab, PATTERNS, a) && AllGenuine(tab, PATTERNS, b)
    requires MatchLength(tab, p, left, Render(a)) == MatchLength(tab, p, left, Render(b)) > 0
    ensures Lifted(tab, PATTERNS, a, aOut, Pass(tab, p, left, Render(a), ids, n))
    ensures Lifted(tab, PATTERNS, b, bOut, Pass(tab, p, left, Render(b), jds, n))
    ensures Alike(aOut, bOut)
    ensures AlikeLogs(Pass(tab, p, left, Render(a), ids, n).log, Pass(tab, p, left, Render(b), jds, n).log)
    decreases |a|, 0
  {
    hide Matches, MatchLength, Genuine, Pass, PATTERNS, Lifted, AllGenuine, Placeholder, Render, SameLabel;
    hide Alike, AlikeLogs;
    var l := MatchLength(tab, p, left, Render(a));
    MatchKept(tab, PATTERNS, p, left, a, ids(n));
    MatchKept(tab, PATTERNS, p, left, b, jds(n));
    SameStretch(a, b, Render(a)[..l], Render(b)[..l]);
    TailGenuine(tab, PATTERNS, a, l);
    TailGenuine(tab, PATTERNS, b, l);
    AlikeDrop(a, b, l);
    var next := tab.word(Render(a)[l - 1]);
    assert Render(a)[l - 1] == Render(a)[..l][l - 1] && Render(b)[l - 1] == Render(b)[..l][l - 1];
    var x, y := PassAlike(tab, p, next, a[l..], b[l..], ids, jds, n + 1);
    aOut := PassLiftsTake(tab, PATTERNS, p, left, a, ids, n, l, x);
    bOut := PassLiftsTake(tab, PATTERNS, p, left, b, jds, n, l, y);
    assert p.name in LABELS by { assert Separated(tab, p); }
    LabelOf(p.name, ids(n), jds(n), Render(a)[..l]);
    var e, f := Entry(Placeholder(p.name, ids(n)), Render(a)[..l]), Entry(Placeholder(p.name, jds(n)), Render(b)[..l]);
    AlikeJoin(Hole(e), x, Hole(f), y);
    AlikeLogJoin(e, Pass(tab, p, next, Render(a[l..]), ids, n + 1).log, f,
        Pass(tab, p, next, Render(b[l..]), jds, n + 1).log);
  }

  lemma {:induction false} SameStretch(a: seq<Item>, b: seq<Item>, u: string, v: string)
    requires Alike(a, b) && |u| == |v| <= |a| && a == Keeps(u) + a[|u|..] && |v| <= |b| && b == Keeps(v) + b[|v|..]
    ensures u == v
  {
    assert a[..|u|] == Keeps(u) && b[..|v|] == Keeps(v);
    AlikePrefix(a, b, u, v);
  }

  // -------------------------------------------------------------------------
  // All the passes
  // -------------------------------------------------------------------------

  lemma {:induction false} PassesAlike(
    tab: Table, ps: seq<Pattern>, a: seq<Item>, b: seq<Item>, ids: nat -> Id, jds: nat -> Id, n: nat)
    requires AllSeparated(tab, PATTERNS) && Alike(a, b) && AllGenuine(tab, PATTERNS, a) && AllGenuine(tab, PATTERNS, b)
    requires forall p | p in ps :: p in PATTERNS
    ensures AlikeLogs(Passes(tab, ps, Render(a), ids, n).log, Passes(tab, ps, Render(b), jds, n).log)
    decreases |ps|
  {
    hide Pass, Passes, Separated, Genuine, PATTERNS, Render, Source, Alike, AlikeLogs, Holes;
    if ps == [] {
      PassesAtEnd(tab, ps, Render(a), ids, n);
      PassesAtEnd(tab, ps, Render(b), jds, n);
      NoLogs();
    } else {
      var first, second := Pass(tab, ps[0], false, Render(a), ids, n), Pass(tab, ps[0], false, Render(b), jds, n);
      var x, y := PassAlike(tab, ps[0], false, a, b, ids, jds, n);
      AlikeLogLength(first.log, second.log);
      PassesAlike(tab, ps[1..], x, y, ids, jds, n + |first.log|);
      PassesUnfold(tab, ps, Render(a), ids, n);
      PassesUnfold(tab, ps, Render(b), jds, n);
      AlikeLogConcat(first.log, second.log, Passes(tab, ps[1..], first.text, ids, n + |first.log|).log,
                     Passes(tab, ps[1..], second.text, jds, n + |first.log|).log);
    }
  }

  lemma {:induction false} AlikeItself(s: string)
    ensures Alike(Keeps(s), Keeps(s))
  {
  }

  /** How many pieces are replaced, their labels and their originals are the same whatever ids are drawn. */
  lemma {:induction false} LogsAlike(tab: Table, text: string, ids: nat -> Id, jds: nat -> Id)
    ensures AlikeLogs(Tokenised(tab, text, ids).log, Tokenised(tab, text, jds).log)
  {
    hide Pass, Passes, Separated, Genuine, PATTERNS, AlikeLogs, Alike;
    PatternsSeparated(tab);
    RenderKeeps(text);
    AlikeItself(text);
    PassesAlike(tab, PATTERNS, Keeps(text), Keeps(text), ids, jds, 0);
  }
}
