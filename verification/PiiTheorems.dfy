/** Detokenising undoes tokenising, and tokenising leaves nothing to tokenise. */
module PiiTheorems {
  import opened Regex
  import opened PiiPatterns
  import opened Substitution
  import opened Tokeniser

  ghost predicate AllSeparated(tab: Table, ps: seq<Pattern>) {
    forall p | p in ps :: Separated(tab, p)
  }

  // -------------------------------------------------------------------------
  // A pass leaves placeholders alone
  // -------------------------------------------------------------------------

  lemma {:induction false} PlaceholderFacts(tab: Table, p: Pattern, name: string, id: Id)
    requires Separated(tab, p) && name in LABELS
    ensures Bracketed(Placeholder(name, id)) && CleanInside(tab, p, Placeholder(name, id))
    ensures !tab.word('[') && !tab.word(']')
  {
    PlaceholderBracketed(name, id);
  }

  lemma {:induction false} PassSkips(
    tab: Table, p: Pattern, left: bool, ph: string, k: nat, z: string, ids: nat -> Id, n: nat)
    requires MatchesBracketFree(tab, p) && Bracketed(ph) && CleanInside(tab, p, ph)
    requires k < |ph|
    ensures Pass(tab, p, left, ph[k..] + z, ids, n) == Append(Scan(ph[k..], []), Pass(tab, p, false, z, ids, n))
    decreases |ph| - k
  {
    hide Pass, MatchLength;
    var s := ph[k..] + z;
    PlaceholderClean(tab, p, ph, left, k, z);
    assert s[0..] == s;
    PassCopies(tab, p, left, s, 0, ids, n);
    assert s[0] == ph[k] && s[1..] == ph[k + 1..] + z;
    if k + 1 == |ph| {
      assert s[1..] == z && s[0] == ']' && ph[k..] == [s[0]];
      assert !tab.word(']');
    } else {
      PassSkips(tab, p, tab.word(s[0]), ph, k + 1, z, ids, n);
      AppendAssociative(Scan([ph[k]], []), Scan(ph[k + 1..], []), Pass(tab, p, false, z, ids, n));
      assert ph[k..] == [ph[k]] + ph[k + 1..];
    }
  }

  // -------------------------------------------------------------------------
  // Every pass turns characters of the user's text into holes
  // -------------------------------------------------------------------------

  /** A hole whose placeholder and original both come from one pattern of `ps`. */
  ghost predicate Genuine(tab: Table, ps: seq<Pattern>, e: Entry) {
    exists p, id | p in ps ::
      p.name in LABELS && e.placeholder == Placeholder(p.name, id) && e.original != ""
          && Matches(tab, p.body, e.original)
  }

  ghost predicate AllGenuine(tab: Table, ps: seq<Pattern>, items: seq<Item>) {
    forall e | e in Holes(items) :: Genuine(tab, ps, e)
  }

  lemma {:induction false} GenuineGood(tab: Table, ps: seq<Pattern>, e: Entry)
    requires AllSeparated(tab, ps) && Genuine(tab, ps, e)
    ensures GoodEntry(e)
  {
    var p, id :| p in ps && p.name in LABELS && e.placeholder == Placeholder(p.name, id)
        && Matches(tab, p.body, e.original);
    PlaceholderBracketed(p.name, id);
  }

  lemma {:induction false} AllGenuineGood(tab: Table, ps: seq<Pattern>, items: seq<Item>)
    requires AllSeparated(tab, ps) && AllGenuine(tab, ps, items)
    ensures Good(items)
  {
    forall e | e in Holes(items)
      ensures GoodEntry(e)
    {
      GenuineGood(tab, ps, e);
    }
  }

  /** The match at the front of the working text is the user's own text, and its pattern accounts for it. */
  lemma {:induction false} MatchKept(tab: Table, ps: seq<Pattern>, p: Pattern, left: bool, items: seq<Item>, id: Id)
    requires AllSeparated(tab, ps) && p in ps && AllGenuine(tab, ps, items)
    requires MatchLength(tab, p, left, Render(items)) > 0
    ensures var l := MatchLength(tab, p, left, Render(items));
            && l <= |items| && items == Keeps(Render(items)[..l]) + items[l..]
            && Genuine(tab, ps, Entry(Placeholder(p.name, id), Render(items)[..l]))
  {
    hide MatchLength, Matches, Genuine, Render, Holes;
    var o := MatchAtFront(tab, p, left, Render(items));
    AllGenuineGood(tab, ps, items);
    OpenFreePrefixKept(items, o);
    GenuineIntro(tab, ps, p, id, o);
  }

  lemma {:induction false} MatchAtFront(tab: Table, p: Pattern, left: bool, t: string) returns (o: string)
    requires Separated(tab, p) && MatchLength(tab, p, left, t) > 0
    ensures o == t[..MatchLength(tab, p, left, t)] && o != ""
    ensures BracketFree(o) && Matches(tab, p.body, o)
  {
    hide MatchLength, Matches;
    MatchLengthExact(tab, p, left, t);
    o := t[..MatchLength(tab, p, left, t)];
  }

  lemma {:induction false} GenuineIntro(tab: Table, ps: seq<Pattern>, p: Pattern, id: Id, o: string)
    requires p in ps && p.name in LABELS && o != "" && Matches(tab, p.body, o)
    ensures Genuine(tab, ps, Entry(Placeholder(p.name, id), o))
  {
    hide Matches;
  }

  lemma {:induction false} SeqCons(x: Entry, xs: seq<Entry>)
    ensures multiset([x] + xs) == multiset{x} + multiset(xs)
  {
  }

  lemma {:induction false} TailGenuine(tab: Table, ps: seq<Pattern>, items: seq<Item>, l: nat)
    requires AllGenuine(tab, ps, items) && l <= |items|
    ensures AllGenuine(tab, ps, items[l..])
  {
    assert items == items[..l] + items[l..];
    HolesConcat(items[..l], items[l..]);
  }

  /** The invariant a pass keeps: what is shown, what it means, and which holes it has. */
  ghost predicate Lifted(tab: Table, ps: seq<Pattern>, items: seq<Item>, out: seq<Item>, scan: Scan) {
    && Render(out) == scan.text
    && Source(out) == Source(items)
    && Holes(out) == Holes(items) + multiset(scan.log)
    && AllGenuine(tab, ps, out)
  }

  lemma {:induction false} PassLifts(
    tab: Table, ps: seq<Pattern>, p: Pattern, left: bool, items: seq<Item>, ids: nat -> Id, n: nat)
    returns (out: seq<Item>)
    requires AllSeparated(tab, ps) && p in ps && AllGenuine(tab, ps, items)
    ensures Lifted(tab, ps, items, out, Pass(tab, p, left, Render(items), ids, n))
    decreases |items|
  {
    hide Matches, MatchLength, Separated, Genuine, Pass;
    PassAtEnd(tab, p, left, "", ids, n);
    if items == [] {
      out := [];
    } else if items[0].Hole? {
      TailGenuine(tab, ps, items, 1);
      var rest := PassLifts(tab, ps, p, false, items[1..], ids, n);
      out := PassLiftsHole(tab, ps, p, left, items, ids, n, rest);
    } else if MatchLength(tab, p, left, Render(items)) == 0 {
      TailGenuine(tab, ps, items, 1);
      var rest := PassLifts(tab, ps, p, tab.word(items[0].c), items[1..], ids, n);
      out := PassLiftsCopy(tab, ps, p, left, items, ids, n, rest);
    } else {
      var l := MatchLength(tab, p, left, Render(items));
      MatchKept(tab, ps, p, left, items, ids(n));
      TailGenuine(tab, ps, items, l);
      var rest := PassLifts(tab, ps, p, tab.word(Render(items)[l - 1]), items[l..], ids, n + 1);
      out := PassLiftsTake(tab, ps, p, left, items, ids, n, l, rest);
    }
  }

  /** The first character is copied. */
  lemma {:induction false} PassLiftsCopy(
    tab: Table, ps: seq<Pattern>, p: Pattern, left: bool, items: seq<Item>, ids: nat -> Id, n: nat, rest: seq<Item>)
    returns (out: seq<Item>)
    requires items != [] && items[0].Keep? && MatchLength(tab, p, left, Render(items)) == 0
        && AllGenuine(tab, ps, items)
    requires Lifted(tab, ps, items[1..], rest, Pass(tab, p, tab.word(items[0].c), Render(items[1..]), ids, n))
    ensures Lifted(tab, ps, items, out, Pass(tab, p, left, Render(items), ids, n)) && out == [items[0]] + rest
    ensures Pass(tab, p, left, Render(items), ids, n).log ==
            Pass(tab, p, tab.word(items[0].c), Render(items[1..]), ids, n).log
  {
    hide Matches, MatchLength, Genuine, Pass;
    assert Render(items) == [items[0].c] + Render(items[1..]);
    assert Render(items)[0..] == Render(items) && Render(items)[1..] == Render(items[1..]);
    PassCopies(tab, p, left, Render(items), 0, ids, n);
    out := PassLiftsShown(tab, ps, items, rest, Pass(tab, p, tab.word(items[0].c), Render(items[1..]), ids, n));
  }

  /** The first l characters are matched and replaced. */
  lemma {:induction false} PassLiftsTake(
    tab: Table, ps: seq<Pattern>, p: Pattern, left: bool, items: seq<Item>, ids: nat -> Id, n: nat, l: nat,
    rest: seq<Item>) returns (out: seq<Item>)
    requires AllSeparated(tab, ps) && p in ps && AllGenuine(tab, ps, items)
    requires l == MatchLength(tab, p, left, Render(items)) > 0 && l <= |items|
    requires Lifted(tab, ps, items[l..], rest,
        Pass(tab, p, tab.word(Render(items)[l - 1]), Render(items[l..]), ids, n + 1))
    ensures Lifted(tab, ps, items, out, Pass(tab, p, left, Render(items), ids, n))
    ensures var e := Entry(Placeholder(p.name, ids(n)), Render(items)[..l]);
            && out == [Hole(e)] + rest
            && Pass(tab, p, left, Render(items), ids, n).log ==
               [e] + Pass(tab, p, tab.word(Render(items)[l - 1]), Render(items[l..]), ids, n + 1).log
  {
    hide Matches, MatchLength, Separated, Genuine, Pass;
    var t := Render(items);
    MatchKept(tab, ps, p, left, items, ids(n));
    KeepsPrefix(t[..l], items[l..]);
    assert t[l..] == Render(items[l..]) && t[0..] == t;
    var e := Entry(Placeholder(p.name, ids(n)), t[..l]);
    PassReplaces(tab, p, left, t, 0, ids, n, l);
    out := PassLiftsMatch(tab, ps, items, l, e, rest, Pass(tab, p, tab.word(t[l - 1]), t[l..], ids, n + 1));
  }

  lemma {:induction false} PassLiftsMatch(
      tab: Table, ps: seq<Pattern>, items: seq<Item>, l: nat, e: Entry, rest: seq<Item>, scan: Scan)
    returns (out: seq<Item>)
    requires l <= |items| && items == Keeps(e.original) + items[l..]
    requires Genuine(tab, ps, e) && Lifted(tab, ps, items[l..], rest, scan)
    ensures Lifted(tab, ps, items, out, Append(Scan(e.placeholder, [e]), scan)) && out == [Hole(e)] + rest
  {
    out := [Hole(e)] + rest;
    assert out[1..] == rest;
    KeepsPrefix(e.original, items[l..]);
    SeqCons(e, scan.log);
  }

  lemma {:induction false} PassLiftsHole(
    tab: Table, ps: seq<Pattern>, p: Pattern, left: bool, items: seq<Item>, ids: nat -> Id, n: nat, rest: seq<Item>)
    returns (out: seq<Item>)
    requires AllSeparated(tab, ps) && p in ps && AllGenuine(tab, ps, items)
    requires items != [] && items[0].Hole?
    requires Lifted(tab, ps, items[1..], rest, Pass(tab, p, false, Render(items[1..]), ids, n))
    ensures Lifted(tab, ps, items, out, Pass(tab, p, left, Render(items), ids, n)) && out == [items[0]] + rest
    ensures Pass(tab, p, left, Render(items), ids, n).log == Pass(tab, p, false, Render(items[1..]), ids, n).log
  {
    hide Pass, MatchLength, Matches;
    var e := items[0].entry;
    assert e in Holes(items);
    assert Genuine(tab, ps, e);
    var q, id :| q in ps && q.name in LABELS && e.placeholder == Placeholder(q.name, id);
    PlaceholderFacts(tab, p, q.name, id);
    assert e.placeholder[0..] == e.placeholder;
    PassSkips(tab, p, left, e.placeholder, 0, Render(items[1..]), ids, n);
    out := PassLiftsShown(tab, ps, items, rest, Pass(tab, p, false, Render(items[1..]), ids, n));
  }

  lemma {:induction false} Cons(item: Item, rest: seq<Item>)
    ensures Render([item] + rest) == Shown(item) + Render(rest)
    ensures Source([item] + rest) == Meant(item) + Source(rest)
    ensures Holes([item] + rest) == (if item.Hole? then multiset{item.entry} else multiset{}) + Holes(rest)
  {
    assert ([item] + rest)[1..] == rest;
  }

  lemma {:induction false} PassLiftsShown(tab: Table, ps: seq<Pattern>, items: seq<Item>, rest: seq<Item>, scan: Scan)
    returns (out: seq<Item>)
    requires items != [] && AllGenuine(tab, ps, items) && Lifted(tab, ps, items[1..], rest, scan)
    ensures Lifted(tab, ps, items, out, Append(Scan(Shown(items[0]), []), scan)) && out == [items[0]] + rest
  {
    hide Genuine, Render, Source, Holes;
    out := [items[0]] + rest;
    assert items == [items[0]] + items[1..];
    Cons(items[0], items[1..]);
    Cons(items[0], rest);
    assert [] + scan.log == scan.log;
  }

  lemma {:induction false} LiftedTransitive(
    tab: Table, ps: seq<Pattern>, items: seq<Item>, mid: seq<Item>, out: seq<Item>, first: Scan, rest: Scan)
    requires Lifted(tab, ps, items, mid, first) && Lifted(tab, ps, mid, out, rest)
    ensures Lifted(tab, ps, items, out, Scan(rest.text, first.log + rest.log))
  {
    hide Genuine, Render, Source, Holes;
    assert multiset(first.log + rest.log) == multiset(first.log) + multiset(rest.log);
  }

  lemma {:induction false} PassesLift(
    tab: Table, all: seq<Pattern>, ps: seq<Pattern>, items: seq<Item>, ids: nat -> Id, n: nat)
    returns (out: seq<Item>)
    requires AllSeparated(tab, all) && AllGenuine(tab, all, items)
    requires forall p | p in ps :: p in all
    ensures Lifted(tab, all, items, out, Passes(tab, ps, Render(items), ids, n))
    decreases |ps|
  {
    hide Pass, Passes, Separated, Genuine, Holes, Render, Source;
    if ps == [] {
      PassesAtEnd(tab, ps, Render(items), ids, n);
      out := items;
    } else {
      PassesUnfold(tab, ps, Render(items), ids, n);
      var first := Pass(tab, ps[0], false, Render(items), ids, n);
      var mid := PassLifts(tab, all, ps[0], false, items, ids, n);
      out := PassesLift(tab, all, ps[1..], mid, ids, n + |first.log|);
      var rest := Passes(tab, ps[1..], first.text, ids, n + |first.log|);
      LiftedTransitive(tab, all, items, mid, out, first, rest);
    }
  }

  /** The tokenised text is the user's text with matched pieces behind placeholders, one log entry for each. */
  lemma {:induction false} TokenisedLifts(tab: Table, text: string, ids: nat -> Id) returns (items: seq<Item>)
    ensures Render(items) == Tokenised(tab, text, ids).text
    ensures Source(items) == text
    ensures Holes(items) == multiset(Tokenised(tab, text, ids).log)
    ensures AllGenuine(tab, PATTERNS, items)
    ensures AllSeparated(tab, PATTERNS)
  {
    hide Pass, Passes, Separated, Genuine;
    PatternsSeparated(tab);
    RenderKeeps(text);
    items := PassesLift(tab, PATTERNS, PATTERNS, Keeps(text), ids, 0);
  }

  // -------------------------------------------------------------------------
  // The map that tokenising builds
  // -------------------------------------------------------------------------

  /** No placeholder stands for two different originals. */
  ghost predicate Consistent(log: seq<Entry>) {
    forall a, b | a in log && b in log && a.placeholder == b.placeholder :: a.original == b.original
  }

  lemma {:induction false} InsertedLookup(m: map<string, string>, log: seq<Entry>)
    requires Consistent(log)
    ensures forall e | e in log :: e.placeholder in Inserted(m, log) && Inserted(m, log)[e.placeholder] == e.original
    ensures forall p | p in Inserted(m, log) :: p in m || exists e | e in log :: e.placeholder == p
    ensures forall p | p in m && (forall e | e in log :: e.placeholder != p) ::
              p in Inserted(m, log) && Inserted(m, log)[p] == m[p]
    decreases |log|
  {
    if log != [] {
      var e := log[0];
      var m' := m[e.placeholder := e.original];
      assert forall x | x in log[1..] :: x in log;
      assert forall x | x in log :: x == e || x in log[1..];
      assert e in log;
      InsertedLookup(m', log[1..]);
      assert e.placeholder in Inserted(m', log[1..]) && Inserted(m', log[1..])[e.placeholder] == e.original by {
        if forall x | x in log[1..] :: x.placeholder != e.placeholder {
          assert e.placeholder in m';
        }
      }
    }
  }

  // -------------------------------------------------------------------------
  // Round trip
  // -------------------------------------------------------------------------

  lemma {:induction false} NoHolesMeansDone(items: seq<Item>)
    requires |Holes(items)| == 0
    ensures Render(items) == Source(items)
  {
    if items != [] {
      NoHolesMeansDone(items[1..]);
    }
  }

  lemma {:induction false} DetokeniseRestores(items: seq<Item>, m: map<string, string>, order: seq<string>)
    requires Good(items)
    requires forall p | p in order :: p in m && Bracketed(p) && !Occurs(Source(items), p)
    requires forall e | e in Holes(items) :: e.placeholder in order && m[e.placeholder] == e.original
    ensures DetokeniseIn(order, m, Render(items)) == Source(items)
    decreases |order|
  {
    if order == [] {
      assert Holes(items) == multiset{};
      NoHolesMeansDone(items);
    } else {
      var p := order[0];
      ReplaceRestores(items, p, m[p]);
      RestoreMeaning(items, p);
      var next := Restore(items, p);
      forall e | e in Holes(next)
        ensures GoodEntry(e) && e.placeholder in order[1..] && m[e.placeholder] == e.original
      {
        assert e in Holes(items) && e.placeholder in order;
      }
      DetokeniseRestores(next, m, order[1..]);
    }
  }

  function CountIn(order: seq<string>, t: string): nat {
    if order == [] then 0 else (if order[0] == "" then 0 else Count(t, order[0])) + CountIn(order[1..], t)
  }

  lemma {:induction false} CountInReplace(order: seq<string>, t: string, q: string, o: string)
    requires Bracketed(q) && BracketFree(o)
    requires forall p | p in order :: Bracketed(p) && p != q
    ensures CountIn(order, Replace(t, q, o)) >= CountIn(order, t)
  {
    if order != [] {
      assert order[0] in order;
      ReplaceKeepsOthers(t, q, o, order[0]);
      CountInReplace(order[1..], t, q, o);
    }
  }

  /** Detokenising takes at least one opening bracket for every placeholder occurrence it started with. */
  lemma {:induction false} DetokeniseTakesOpens(order: seq<string>, m: map<string, string>, t: string)
    requires forall p | p in order :: p in m && Bracketed(p) && BracketFree(m[p])
    requires forall i, j | 0 <= i < j < |order| :: order[i] != order[j]
    ensures Opens(DetokeniseIn(order, m, t)) + CountIn(order, t) <= Opens(t)
  {
    if order != [] {
      var p := order[0];
      assert p in order;
      ReplaceTakesOpens(t, p, m[p]);
      CountInReplace(order[1..], t, p, m[p]);
      DetokeniseTakesOpens(order[1..], m, Replace(t, p, m[p]));
    }
  }

  lemma {:induction false} OpensOfHoles(items: seq<Item>)
    requires Good(items)
    ensures Opens(Render(items)) == Opens(Source(items)) + |Holes(items)|
  {
    if items != [] {
      TailHoles(items);
      OpensOfHoles(items[1..]);
      OpensConcat(Shown(items[0]), Render(items[1..]));
      OpensConcat(Meant(items[0]), Source(items[1..]));
      if items[0].Hole? {
        assert items[0].entry in Holes(items);
        BracketedOpens(items[0].entry.placeholder);
        NoOpens(items[0].entry.original);
      }
    }
  }

  function HoleCountIn(order: seq<string>, items: seq<Item>): nat {
    if order == [] then 0 else HoleCount(items, order[0]) + HoleCountIn(order[1..], items)
  }

  lemma {:induction false} HoleCountInCons(order: seq<string>, items: seq<Item>)
    requires items != []
    requires forall i, j | 0 <= i < j < |order| :: order[i] != order[j]
    ensures HoleCountIn(order, items) ==
            (if items[0].Hole? && items[0].entry.placeholder in order then 1 else 0) + HoleCountIn(order, items[1..])
    decreases |order|
  {
    if order != [] {
      HoleCountInCons(order[1..], items);
      assert order[0] !in order[1..];
      assert forall p :: p in order <==> p == order[0] || p in order[1..];
    }
  }

  lemma {:induction false} HoleCountInTotal(order: seq<string>, items: seq<Item>)
    requires forall i, j | 0 <= i < j < |order| :: order[i] != order[j]
    requires forall e | e in Holes(items) :: e.placeholder in order
    ensures HoleCountIn(order, items) == |Holes(items)|
    decreases |items|
  {
    if items == [] {
      HoleCountInEmpty(order);
    } else {
      TailHoles(items);
      HoleCountInTotal(order, items[1..]);
      HoleCountInCons(order, items);
      if items[0].Hole? {
        assert items[0].entry in Holes(items);
      }
    }
  }

  lemma {:induction false} HoleCountInEmpty(order: seq<string>)
    ensures HoleCountIn(order, []) == 0
  {
    if order != [] { HoleCountInEmpty(order[1..]); }
  }

  lemma {:induction false} CountInAtLeast(order: seq<string>, items: seq<Item>)
    requires Good(items)
    requires forall p | p in order :: Bracketed(p) && NoHoleInside(items, p)
    ensures CountIn(order, Render(items)) >= HoleCountIn(order, items)
    ensures (exists p | p in order :: Occurs(Source(items), p)) ==>
              CountIn(order, Render(items)) >= HoleCountIn(order, items) + 1
    decreases |order|
  {
    if order != [] {
      assert order[0] in order;
      CountAtLeast(items, order[0]);
      CountInAtLeast(order[1..], items);
      if p :| p in order && Occurs(Source(items), p) {
        assert p == order[0] || p in order[1..];
      }
    }
  }

  /** If the user wrote one of the placeholders, detokenising cannot give the text back. */
  lemma {:induction false} DetokeniseSpoils(items: seq<Item>, m: map<string, string>, order: seq<string>, p: string)
    requires Good(items)
    requires forall q | q in order :: q in m && Bracketed(q) && BracketFree(m[q]) && NoHoleInside(items, q)
    requires forall i, j | 0 <= i < j < |order| :: order[i] != order[j]
    requires forall e | e in Holes(items) :: e.placeholder in order
    requires p in order && Occurs(Source(items), p)
    ensures DetokeniseIn(order, m, Render(items)) != Source(items)
  {
    DetokeniseTakesOpens(order, m, Render(items));
    CountInAtLeast(order, items);
    HoleCountInTotal(order, items);
    OpensOfHoles(items);
  }

  lemma {:induction false} GenuineNotInside(tab: Table, ps: seq<Pattern>, items: seq<Item>, name: string, id: Id)
    requires AllSeparated(tab, ps) && AllGenuine(tab, ps, items) && name in LABELS
    ensures NoHoleInside(items, Placeholder(name, id))
  {
    var ph := Placeholder(name, id);
    forall e, k, j | e in Holes(items) && 0 < k < j < |ph|
      ensures e.original != ph[k..j]
    {
      assert Genuine(tab, ps, e);
      var p, i :| p in ps && p.name in LABELS && e.placeholder == Placeholder(p.name, i)
          && Matches(tab, p.body, e.original);
      assert CleanInside(tab, p, ph);
    }
  }

  lemma {:induction false} LogFacts(tab: Table, ps: seq<Pattern>, items: seq<Item>, log: seq<Entry>, e: Entry)
    requires AllSeparated(tab, ps) && AllGenuine(tab, ps, items)
    requires Holes(items) == multiset(log) && e in log
    ensures e in Holes(items) && GoodEntry(e) && NoHoleInside(items, e.placeholder)
  {
    assert e in multiset(log);
    GenuineGood(tab, ps, e);
    var p, id :| p in ps && p.name in LABELS && e.placeholder == Placeholder(p.name, id);
    GenuineNotInside(tab, ps, items, p.name, id);
  }

  /**
    Round trip. For every text, every stream of ids and every iteration order of the map: when no
    placeholder stands for two originals, detokenising the tokenised text gives the text back exactly
    when the text contains none of the generated placeholders.
  */
  lemma {:induction false} RoundTrip(tab: Table, text: string, ids: nat -> Id, order: seq<string>)
    requires Consistent(Tokenised(tab, text, ids).log)
    requires Enumerates(order, MapOf(Tokenised(tab, text, ids).log).Keys)
    ensures DetokeniseIn(order, MapOf(Tokenised(tab, text, ids).log), Tokenised(tab, text, ids).text) == text <==>
            forall e | e in Tokenised(tab, text, ids).log :: !Occurs(text, e.placeholder)
  {
    hide Pass, Passes, Tokenised, Separated, Genuine;
    var log := Tokenised(tab, text, ids).log;
    var m := MapOf(log);
    var items := TokenisedLifts(tab, text, ids);
    RoundTripOf(tab, PATTERNS, items, log, order);
  }

  lemma {:induction false} RoundTripOf(
      tab: Table, ps: seq<Pattern>, items: seq<Item>, log: seq<Entry>, order: seq<string>)
    requires AllSeparated(tab, ps) && AllGenuine(tab, ps, items)
    requires Holes(items) == multiset(log) && Consistent(log)
    requires Enumerates(order, MapOf(log).Keys)
    ensures DetokeniseIn(order, MapOf(log), Render(items)) == Source(items) <==>
            forall e | e in log :: !Occurs(Source(items), e.placeholder)
  {
    hide Separated, Genuine;
    var m := MapOf(log);
    InsertedLookup(map[], log);
    AllGenuineGood(tab, ps, items);
    forall p | p in order
      ensures p in m && Bracketed(p) && BracketFree(m[p]) && NoHoleInside(items, p)
      ensures exists e | e in log :: e.placeholder == p
    {
      var e :| e in log && e.placeholder == p;
      LogFacts(tab, ps, items, log, e);
    }
    forall e | e in Holes(items)
      ensures e in log && e.placeholder in order && m[e.placeholder] == e.original
    {
      assert e in multiset(log);
    }
    if e :| e in log && Occurs(Source(items), e.placeholder) {
      DetokeniseSpoils(items, m, order, e.placeholder);
    } else {
      DetokeniseRestores(items, m, order);
    }
  }

  // -------------------------------------------------------------------------
  // Distinct ids, and where the stored originals come from
  // -------------------------------------------------------------------------

  lemma {:induction false} PassDrawsIds(tab: Table, p: Pattern, left: bool, s: string, ids: nat -> Id, n: nat, i: nat)
    requires i < |Pass(tab, p, left, s, ids, n).log|
    ensures Pass(tab, p, left, s, ids, n).log[i].placeholder == Placeholder(p.name, ids(n + i))
    decreases |s|
  {
    hide Pass, MatchLength, Placeholder;
    PassAtEnd(tab, p, left, "", ids, n);
    assert s[0..] == s;
    var l := MatchLength(tab, p, left, s);
    if s == "" {
    } else if l == 0 {
      PassCopies(tab, p, left, s, 0, ids, n);
      PassDrawsIds(tab, p, tab.word(s[0]), s[1..], ids, n, i);
    } else {
      PassReplaces(tab, p, left, s, 0, ids, n, l);
      if i > 0 {
        PassDrawsIds(tab, p, tab.word(s[l - 1]), s[l..], ids, n + 1, i - 1);
      }
    }
  }

  lemma {:induction false} PassesDrawIds(tab: Table, ps: seq<Pattern>, s: string, ids: nat -> Id, n: nat, i: nat)
    requires i < |Passes(tab, ps, s, ids, n).log|
    ensures exists p | p in ps :: Passes(tab, ps, s, ids, n).log[i].placeholder == Placeholder(p.name, ids(n + i))
    decreases |ps|
  {
    hide Pass, Passes, Placeholder;
    if ps == [] {
      PassesAtEnd(tab, ps, s, ids, n);
    } else {
      PassesUnfold(tab, ps, s, ids, n);
      var first := Pass(tab, ps[0], false, s, ids, n);
      if i < |first.log| {
        PassDrawsIds(tab, ps[0], false, s, ids, n, i);
        assert ps[0] in ps;
      } else {
        PassesDrawIds(tab, ps[1..], first.text, ids, n + |first.log|, i - |first.log|);
        var p :| p in ps[1..] && Passes(tab, ps[1..], first.text, ids, n + |first.log|).log[i - |first.log|].placeholder
                                 == Placeholder(p.name, ids(n + i));
        assert p in ps;
      }
    }
  }

  lemma {:induction false} SamePlaceholderSameId(
      tab: Table, ps: seq<Pattern>, s: string, ids: nat -> Id, i: nat, j: nat)
    requires i < |Passes(tab, ps, s, ids, 0).log| && j < |Passes(tab, ps, s, ids, 0).log|
    requires Passes(tab, ps, s, ids, 0).log[i].placeholder == Passes(tab, ps, s, ids, 0).log[j].placeholder
    ensures ids(i) == ids(j)
  {
    hide Passes, Placeholder;
    var log := Passes(tab, ps, s, ids, 0).log;
    PassesDrawIds(tab, ps, s, ids, 0, i);
    PassesDrawIds(tab, ps, s, ids, 0, j);
    var p :| p in ps && log[i].placeholder == Placeholder(p.name, ids(0 + i));
    var q :| q in ps && log[j].placeholder == Placeholder(q.name, ids(0 + j));
    PlaceholderInjective(p.name, ids(i), q.name, ids(j));
  }

  /** Distinct ids never share a placeholder, so the round trip only asks the text to avoid them. */
  lemma {:induction false} RoundTripDistinct(tab: Table, text: string, ids: nat -> Id, order: seq<string>)
    requires forall i: nat, j: nat | i < j < |Tokenised(tab, text, ids).log| :: ids(i) != ids(j)
    requires forall e | e in Tokenised(tab, text, ids).log :: !Occurs(text, e.placeholder)
    requires Enumerates(order, MapOf(Tokenised(tab, text, ids).log).Keys)
    ensures DetokeniseIn(order, MapOf(Tokenised(tab, text, ids).log), Tokenised(tab, text, ids).text) == text
  {
    hide Passes, PATTERNS, DetokeniseIn, MapOf, Occurs, Enumerates;
    var log := Tokenised(tab, text, ids).log;
    forall a, b | a in log && b in log && a.placeholder == b.placeholder
      ensures a.original == b.original
    {
      var i :| 0 <= i < |log| && log[i] == a;
      var j :| 0 <= j < |log| && log[j] == b;
      SamePlaceholderSameId(tab, PATTERNS, text, ids, i, j);
    }
    RoundTrip(tab, text, ids, order);
  }

  lemma {:induction false} HoleOccurs(items: seq<Item>, e: Entry)
    requires e in Holes(items)
    ensures Occurs(Source(items), e.original)
  {
    if items[0] == Hole(e) {
      assert OccursAt(Source(items), e.original, 0);
    } else {
      HoleOccurs(items[1..], e);
      assert Source(items)[|Meant(items[0])|..] == Source(items[1..]);
      OccursLater(Source(items), e.original, |Meant(items[0])|);
    }
  }

  /** Every original the map stores is one contiguous, bracket-free piece of the user's text. */
  lemma {:induction false} OriginalsAreThePromptsOwn(tab: Table, text: string, ids: nat -> Id, e: Entry)
    requires e in Tokenised(tab, text, ids).log
    ensures Occurs(text, e.original) && e.original != "" && BracketFree(e.original)
  {
    hide Pass, Passes, Tokenised, Separated, Genuine;
    var items := TokenisedLifts(tab, text, ids);
    assert e in multiset(Tokenised(tab, text, ids).log);
    HoleOccurs(items, e);
    GenuineGood(tab, PATTERNS, e);
  }

  /** The whole journey of a prompt: the text comes back exactly when it contained no generated placeholder. */
  method TokeniseAndRestore(tab: Table, text: string, ids: nat -> Id) returns (sent: string, restored: string)
    ensures sent == Tokenised(tab, text, ids).text
    ensures Consistent(Tokenised(tab, text, ids).log) ==>
              (restored == text <==> forall e | e in Tokenised(tab, text, ids).log :: !Occurs(text, e.placeholder))
  {
    hide Passes, Pass, Tokenised, Occurs, Consistent, DetokeniseIn, MapOf;
    var pii;
    sent, pii := Tokenise(tab, text, ids);
    restored := pii.Detokenize(sent);
    ghost var order :| Enumerates(order, pii.entries.Keys) && restored == DetokeniseIn(order, pii.entries, sent);
    if Consistent(Tokenised(tab, text, ids).log) {
      RoundTrip(tab, text, ids, order);
    }
  }
}
