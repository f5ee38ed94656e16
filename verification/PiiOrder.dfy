/** Detokenising any text, an aggregated output for example: the order in which the map is visited does not matter. */
module PiiOrder {
  import opened Regex
  import opened PiiPatterns
  import opened Substitution
  import opened Tokeniser
  import opened PiiTheorems

  /** No stretch of `p` between its brackets is `o`; in particular `o` is not empty. */
  ghost predicate NotInside(o: string, p: string) {
    forall i, j | 0 < i <= j < |p| :: p[i..j] != o
  }

  // -------------------------------------------------------------------------
  // Two replacements commute
  // -------------------------------------------------------------------------

  /** A text that begins with `o` does not begin with `w`. */
  lemma {:induction false} NotInFront(b: string, o: string, w: string)
    requires BracketFree(o) && w != "" && w[|w| - 1] == ']'
    requires forall i, j | 0 <= i <= j < |w| :: w[i..j] != o
    ensures !(w <= o + b)
  {
    if |o| < |w| {
      assert w[0..|o|] != o;
      var i :| 0 <= i < |o| && w[i] != o[i];
      assert (o + b)[i] != w[i];
    }
  }

  /** A replacement cannot bring the rest `w` of a placeholder to the front of a text. */
  lemma {:induction false} FrontKept(t: string, p: string, o: string, w: string)
    requires Bracketed(p) && BracketFree(o) && w != "" && w[|w| - 1] == ']'
    requires forall i, j | 0 <= i <= j < |w| :: w[i..j] != o
    requires w <= Replace(t, p, o)
    ensures w <= t
    decreases |w|
  {
    if p <= t {
      NotInFront(Replace(t[|p|..], p, o), o, w);
      assert false;
    } else if |w| > 1 {
      var rest := Replace(t[1..], p, o);
      assert w[1..] <= rest;
      forall i, j | 0 <= i <= j < |w[1..]|
        ensures w[1..][i..j] != o
      {
        assert w[1..][i..j] == w[i + 1..j + 1];
      }
      FrontKept(t[1..], p, o, w[1..]);
    }
  }

  lemma {:induction false} NoNewFront(t: string, p: string, o: string, q: string)
    requires Bracketed(p) && Bracketed(q) && BracketFree(o) && NotInside(o, q) && t != "" && !(p <= t)
    requires q <= Replace(t, p, o)
    ensures q <= t
  {
    var w := q[1..];
    forall i, j | 0 <= i <= j < |w|
      ensures w[i..j] != o
    {
      assert w[i..j] == q[i + 1..j + 1];
    }
    assert w <= Replace(t[1..], p, o);
    FrontKept(t[1..], p, o, w);
  }

  /** Bracketed placeholders, each replaced by a bracket-free text that is no stretch inside the other one. */
  ghost predicate Apart(p: string, o: string, q: string, u: string) {
    && p != q && Bracketed(p) && Bracketed(q) && BracketFree(o) && BracketFree(u)
    && NotInside(o, q) && NotInside(u, p)
  }

  lemma {:induction false} CommuteAtFront(b: string, p: string, o: string, q: string, u: string)
    requires Apart(p, o, q, u)
    ensures Replace(Replace(p + b, p, o), q, u) == o + Replace(Replace(b, p, o), q, u)
    ensures Replace(Replace(p + b, q, u), p, o) == o + Replace(Replace(b, q, u), p, o)
  {
    SkipSelf(b, p, o);
    SkipStretch(o, Replace(b, p, o), q, u);
    SkipOther(p, b, q, u);
    SkipSelf(Replace(b, q, u), p, o);
  }

  /** Whatever the text. */
  lemma {:induction false} ReplacementsCommute(t: string, p: string, o: string, q: string, u: string)
    requires Apart(p, o, q, u)
    ensures Replace(Replace(t, p, o), q, u) == Replace(Replace(t, q, u), p, o)
    decreases |t|
  {
    hide Bracketed, BracketFree, NotInside;
    assert p != "" && q != "" by { BracketedNotEmpty(p, q); }
    if t == "" {
    } else if p <= t {
      assert t == p + t[|p|..];
      CommuteAtFront(t[|p|..], p, o, q, u);
      ReplacementsCommute(t[|p|..], p, o, q, u);
    } else if q <= t {
      assert t == q + t[|q|..];
      CommuteAtFront(t[|q|..], q, u, p, o);
      ReplacementsCommute(t[|q|..], p, o, q, u);
    } else {
      ReplacementsCommute(t[1..], p, o, q, u);
      var x, y := Replace(t[1..], p, o), Replace(t[1..], q, u);
      assert Replace(t, p, o) == [t[0]] + x && Replace(t, q, u) == [t[0]] + y;
      if q <= Replace(t, p, o) { NoNewFront(t, p, o, q); }
      if p <= Replace(t, q, u) { NoNewFront(t, q, u, p); }
      assert ([t[0]] + x)[1..] == x && ([t[0]] + y)[1..] == y;
    }
  }

  lemma {:induction false} BracketedNotEmpty(p: string, q: string)
    requires Bracketed(p) && Bracketed(q)
    ensures p != "" && q != ""
  {
  }

  // -------------------------------------------------------------------------
  // Two orders of one map
  // -------------------------------------------------------------------------

  /** Any two entries of the map are apart. */
  ghost predicate AllApart(m: map<string, string>) {
    forall p, q | p in m && q in m && p != q :: Apart(p, m[p], q, m[q])
  }

  ghost predicate Orders(order: seq<string>, m: map<string, string>) {
    && (forall p | p in order :: p in m && p != "")
    && (forall i, j | 0 <= i < j < |order| :: order[i] != order[j])
  }

  /** Visiting one entry first makes no difference. */
  lemma {:induction false} VisitFirst(order: seq<string>, k: nat, m: map<string, string>, t: string)
    requires AllApart(m) && Orders(order, m) && k < |order|
    ensures var y := order[k];
            DetokeniseIn(order, m, t) == DetokeniseIn(order[..k] + order[k + 1..], m, Replace(t, y, m[y]))
    decreases k
  {
    var x, y, rest := order[0], order[k], order[1..];
    if k == 0 {
      assert order[..0] + order[1..] == rest;
    } else {
      VisitFirst(rest, k - 1, m, Replace(t, x, m[x]));
      hide Apart;
      var others := order[..k] + order[k + 1..];
      assert others[0] == x && others[1..] == rest[..k - 1] + rest[k..];
      assert Apart(x, m[x], y, m[y]);
      ReplacementsCommute(t, x, m[x], y, m[y]);
    }
  }

  lemma {:induction false} OrdersWithout(order: seq<string>, k: nat, keys: set<string>, m: map<string, string>)
    requires Orders(order, m) && Enumerates(order, keys) && k < |order|
    ensures var others := order[..k] + order[k + 1..];
            Orders(others, m) && Enumerates(others, keys - {order[k]})
  {
    var others := order[..k] + order[k + 1..];
    forall p: string
      ensures p in others <==> p in keys - {order[k]}
    {
      if p in keys - {order[k]} {
        var i :| 0 <= i < |order| && order[i] == p;
        assert others[if i < k then i else i - 1] == p;
      }
    }
  }

  lemma {:induction false} SameInAnyOrder(
      order: seq<string>, other: seq<string>, keys: set<string>, m: map<string, string>, t: string)
    requires AllApart(m) && Orders(order, m) && Orders(other, m) && Enumerates(order, keys) && Enumerates(other, keys)
    ensures DetokeniseIn(order, m, t) == DetokeniseIn(other, m, t)
    decreases |other|
  {
    hide AllApart;
    if other == [] {
      assert keys == {};
      assert order == [];
    } else {
      var y := other[0];
      assert y in keys && y in order;
      var k: nat :| k < |order| && order[k] == y;
      VisitFirst(order, k, m, t);
      OrdersWithout(order, k, keys, m);
      OrdersWithout(other, 0, keys, m);
      assert other[..0] + other[1..] == other[1..];
      SameInAnyOrder(order[..k] + order[k + 1..], other[1..], keys - {y}, m, Replace(t, y, m[y]));
    }
  }

  // -------------------------------------------------------------------------
  // The map that tokenising builds
  // -------------------------------------------------------------------------

  /** Whichever of two equal placeholders was inserted last, the entry is one of the log's. */
  lemma {:induction false} InsertedFrom(m: map<string, string>, log: seq<Entry>, p: string)
    requires p in Inserted(m, log)
    ensures Entry(p, Inserted(m, log)[p]) in log || (p in m && Inserted(m, log)[p] == m[p])
    decreases |log|
  {
    if log != [] {
      InsertedFrom(m[log[0].placeholder := log[0].original], log[1..], p);
      assert log[0] in log && forall e | e in log[1..] :: e in log;
    }
  }

  lemma {:induction false} MapApart(tab: Table, text: string, ids: nat -> Id)
    ensures AllApart(MapOf(Tokenised(tab, text, ids).log))
    ensures "" !in MapOf(Tokenised(tab, text, ids).log)
  {
    hide Tokenised, Inserted, AllSeparated, AllGenuine, Render, Source, Holes, NotInside;
    var items := TokenisedLifts(tab, text, ids);
    var log := Tokenised(tab, text, ids).log;
    var m := MapOf(log);
    forall p | p in m
      ensures Entry(p, m[p]) in log && GoodEntry(Entry(p, m[p])) && NoHoleInside(items, p)
    {
      InsertedFrom(map[], log, p);
      LogFacts(tab, PATTERNS, items, log, Entry(p, m[p]));
    }
    forall p, q | p in m && q in m && p != q
      ensures Apart(p, m[p], q, m[q])
    {
      HoleNotInside(items, log, Entry(p, m[p]), q);
      HoleNotInside(items, log, Entry(q, m[q]), p);
    }
  }

  lemma {:induction false} HoleNotInside(items: seq<Item>, log: seq<Entry>, e: Entry, q: string)
    requires Holes(items) == multiset(log) && e in log && GoodEntry(e) && NoHoleInside(items, q)
    ensures NotInside(e.original, q)
  {
    hide Holes;
    assert e in multiset(log);
  }

  /**
    For every prompt, every stream of ids, repeated ones included, and every text the map is applied to afterwards:
    the result does not depend on the order in which the map is visited.
  */
  lemma {:induction false} OrderDoesNotMatter(
      tab: Table, text: string, ids: nat -> Id, output: string, order: seq<string>, other: seq<string>)
    requires Enumerates(order, MapOf(Tokenised(tab, text, ids).log).Keys)
    requires Enumerates(other, MapOf(Tokenised(tab, text, ids).log).Keys)
    ensures var m := MapOf(Tokenised(tab, text, ids).log);
            DetokeniseIn(order, m, output) == DetokeniseIn(other, m, output)
  {
    hide Tokenised, MapOf, AllApart;
    MapApart(tab, text, ids);
    var m := MapOf(Tokenised(tab, text, ids).log);
    SameInAnyOrder(order, other, m.Keys, m, output);
  }

  /** Two replacements that are not apart need not commute: the second placeholder is put together by the first. */
  lemma {:induction false} OrderCanMatter()
    ensures var p, o, q, u, t := "[x]", "y", "[y]", "z", "[[x]]";
            && Bracketed(p) && Bracketed(q) && BracketFree(o) && BracketFree(u)
            && Replace(Replace(t, p, o), q, u) == "z" && Replace(Replace(t, q, u), p, o) == "[y]"
  {
    var t := "[[x]]";
    assert t[1..] == "[x]]" && t[1..][3..] == "]" && "]"[1..] == "";
    assert Replace("]", "[x]", "y") == "]" + Replace("", "[x]", "y");
    assert Replace(t[1..], "[x]", "y") == "y]";
    assert Replace(t, "[x]", "y") == "[y]";
    assert "[y]"[3..] == "" && Replace("[y]", "[y]", "z") == "z";
    SkipOther("[x]", "]", "[y]", "z");
    assert Replace("]", "[y]", "z") == "]" + Replace("", "[y]", "z");
    assert t[1..] == "[x]" + "]";
    assert Replace(t, "[y]", "z") == ['['] + Replace(t[1..], "[y]", "z") == t;
  }
}
