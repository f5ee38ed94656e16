/** How far each hidden piece reaches, and in which order the passes take their pieces. */
module PiiExtent {
  import opened Regex
  import opened PiiPatterns
  import opened Substitution
  import opened Tokeniser
  import opened PiiTheorems
  import opened PiiFixedPoint
  import opened PiiShapes
  import opened PiiChains
  import opened PiiLongest

  // -------------------------------------------------------------------------
  // Labels
  // -------------------------------------------------------------------------

  /** The entry's placeholder carries this label. */
  ghost predicate Labelled(e: Entry, tag: string) {
    exists id: Id :: e.placeholder == "[PII_" + tag + "_" + id + "]"
  }

  lemma {:induction false} PlaceholderText(tag: string, id: Id)
    ensures Placeholder(tag, id) == "[PII_" + tag + "_" + id + "]"
  {
    assert "[" + ("PII_" + tag + "_" + id) + "]" == "[" + "PII_" + tag + "_" + id + "]";
  }

  lemma {:induction false} LabelUnique(e: Entry, a: string, b: string)
    requires Labelled(e, a) && Labelled(e, b)
    ensures a == b
  {
    var ida: Id :| e.placeholder == "[PII_" + a + "_" + ida + "]";
    var idb: Id :| e.placeholder == "[PII_" + b + "_" + idb + "]";
    assert e.placeholder[5..5 + |a|] == a && e.placeholder[5..5 + |b|] == b;
  }

  lemma {:induction false} OwnLabel(p: Pattern, id: Id, o: string)
    ensures Labelled(Entry(Placeholder(p.name, id), o), p.name)
  {
    PlaceholderText(p.name, id);
  }

  // -------------------------------------------------------------------------
  // Characters that cannot stand next to a hidden piece
  // -------------------------------------------------------------------------

  predicate CannotFollow(tab: Table, tag: string, c: char) {
    || (tag == "email" && AsciiLetter(c))
    || (tag == "api_key" && SecretChar(c))
    || ((tag == "cc" || tag == "ip") && tab.word(c))
  }

  predicate CannotPrecede(tab: Table, tag: string, c: char) {
    || (tag == "email" && LocalChar(c))
    || ((tag == "cc" || tag == "ip") && tab.word(c))
  }

  ghost predicate Adjacent(tab: Table, a: Item, b: Item) {
    && (a.Hole? && b.Keep? ==> forall tag | Labelled(a.entry, tag) :: !CannotFollow(tab, tag, b.c))
    && (a.Keep? && b.Hole? ==> forall tag | Labelled(b.entry, tag) :: !CannotPrecede(tab, tag, a.c))
  }

  /** Every hidden piece reaches as far as it can, on both sides. */
  ghost predicate Framed(tab: Table, items: seq<Item>) {
    forall i | 0 <= i < |items| - 1 :: Adjacent(tab, items[i], items[i + 1])
  }

  lemma {:induction false} FramedTail(tab: Table, items: seq<Item>, k: nat)
    requires Framed(tab, items) && k <= |items|
    ensures Framed(tab, items[k..])
  {
    hide Adjacent;
    var rest := items[k..];
    forall i | 0 <= i < |rest| - 1
      ensures Adjacent(tab, rest[i], rest[i + 1])
    {
      assert rest[i] == items[k + i] && rest[i + 1] == items[k + i + 1];
    }
  }

  lemma {:induction false} FramedCons(tab: Table, x: Item, rest: seq<Item>)
    requires Framed(tab, rest) && (rest != [] ==> Adjacent(tab, x, rest[0]))
    ensures Framed(tab, [x] + rest)
  {
    hide Adjacent;
    var all := [x] + rest;
    forall i | 0 <= i < |all| - 1
      ensures Adjacent(tab, all[i], all[i + 1])
    {
      if i > 0 { assert all[i] == rest[i - 1] && all[i + 1] == rest[i]; }
    }
  }

  // -------------------------------------------------------------------------
  // A match can be extended by such a character
  // -------------------------------------------------------------------------

  lemma {:induction false} EmailGrows(tab: Table, u: string, c: char)
    requires Matches(tab, EMAIL.body, u) && AsciiLetter(c)
    ensures Matches(tab, EMAIL.body, u + [c])
  {
    hide Matches;
    EmailPatternMeans(tab, u);
    var local, host, tld :| IsEmail(u, local, host, tld);
    assert u + [c] == local + ("@" + (host + ("." + (tld + [c]))));
    assert IsEmail(u + [c], local, host, tld + [c]);
    EmailAccepted(tab, u + [c], local, host, tld + [c]);
  }

  lemma {:induction false} EmailGrowsLeft(tab: Table, u: string, c: char)
    requires Matches(tab, EMAIL.body, u) && LocalChar(c)
    ensures Matches(tab, EMAIL.body, [c] + u)
  {
    hide Matches;
    EmailPatternMeans(tab, u);
    var local, host, tld :| IsEmail(u, local, host, tld);
    assert [c] + u == ([c] + local) + ("@" + (host + ("." + tld)));
    assert IsEmail([c] + u, [c] + local, host, tld);
    EmailAccepted(tab, [c] + u, [c] + local, host, tld);
  }

  lemma {:induction false} KeyGrows(tab: Table, u: string, c: char)
    requires Matches(tab, API_KEY.body, u) && SecretChar(c)
    ensures Matches(tab, API_KEY.body, u + [c])
  {
    hide Matches, IsKeyPrefix, SecretChar;
    KeyPatternMeans(tab, u);
    var prefix, gap, secret :| IsKey(tab, u, prefix, gap, secret);
    assert u + [c] == prefix + (gap + (secret + [c]));
    assert IsKey(tab, u + [c], prefix, gap, secret + [c]);
    KeyPatternMeans(tab, u + [c]);
  }

  /** The search never stops before a character that the pattern could still take. */
  lemma {:induction false} StopsRight(tab: Table, p: Pattern, left: bool, s: string)
    requires p in PATTERNS && Separated(tab, p)
    requires 0 < MatchLength(tab, p, left, s) < |s|
    ensures !CannotFollow(tab, p.name, s[MatchLength(tab, p, left, s)])
  {
    hide MatchLength, Matches, Separated;
    var l := MatchLength(tab, p, left, s);
    MatchLengthExact(tab, p, left, s);
    var c := s[l];
    assert s[..l + 1] == s[..l] + [c];
    if p == EMAIL && AsciiLetter(c) {
      EmailGrows(tab, s[..l], c);
      LongestMatch(tab, p, left, s, l + 1);
      assert false;
    } else if p == API_KEY && SecretChar(c) {
      KeyGrows(tab, s[..l], c);
      LongestMatch(tab, p, left, s, l + 1);
      assert false;
    } else if p.anchored {
      AnchoredMatchStart(tab, p, left, s);
    }
  }

  lemma {:induction false} EmailEarlier(tab: Table, left: bool, c: char, t: string, l: nat)
    requires LocalChar(c) && MatchesAt(tab, EMAIL, tab.word(c), t, l)
    ensures MatchesAt(tab, EMAIL, left, [c] + t, l + 1)
  {
    hide Matches;
    EmailGrowsLeft(tab, t[..l], c);
    assert ([c] + t)[..l + 1] == [c] + t[..l];
  }

  /** The search never starts after a character that the pattern could have taken. */
  lemma {:induction false} StartsRight(tab: Table, p: Pattern, left: bool, c: char, t: string)
    requires p in PATTERNS && Separated(tab, p)
    requires MatchLength(tab, p, left, [c] + t) == 0 && MatchLength(tab, p, tab.word(c), t) > 0
    ensures !CannotPrecede(tab, p.name, c)
  {
    hide MatchLength, Matches, Separated;
    var l := MatchLength(tab, p, tab.word(c), t);
    MatchLengthExact(tab, p, tab.word(c), t);
    MatchLengthExact(tab, p, left, [c] + t);
    if p == EMAIL && LocalChar(c) {
      EmailEarlier(tab, left, c, t, l);
      assert false;
    } else if p.anchored {
      AnchoredMatchStart(tab, p, tab.word(c), t);
    }
  }

  // -------------------------------------------------------------------------
  // One pass
  // -------------------------------------------------------------------------

  /** Where the first item of a pass's output comes from. */
  ghost predicate HeadFrom(
    tab: Table, p: Pattern, left: bool, items: seq<Item>, out: seq<Item>, id: Id)
  {
    if items == [] then out == []
    else
      && out != []
      && if items[0].Keep? && MatchLength(tab, p, left, Render(items)) > 0
         then out[0].Hole? && out[0].entry.placeholder == Placeholder(p.name, id)
         else out[0] == items[0]
  }

  /** The text as it looked when only holes with these labels had been made. */
  ghost function ShownFor(items: seq<Item>, tags: set<string>): string {
    if items == [] then ""
    else
      var x := items[0];
      (if x.Hole? && forall tag | Labelled(x.entry, tag) :: tag !in tags then Meant(x) else Shown(x))
          + ShownFor(items[1..], tags)
  }

  /** A pass only adds holes with its own label. */
  ghost predicate AddsOnly(tag: string, items: seq<Item>, out: seq<Item>) {
    forall tags: set<string> | tag !in tags :: ShownFor(out, tags) == ShownFor(items, tags)
  }

  lemma {:induction false} ShownKeeps(s: string, rest: seq<Item>, tags: set<string>)
    ensures ShownFor(Keeps(s) + rest, tags) == s + ShownFor(rest, tags)
    decreases |s|
  {
    if s == "" {
      assert Keeps(s) + rest == rest;
    } else {
      assert (Keeps(s) + rest)[0] == Keep(s[0]) && (Keeps(s) + rest)[1..] == Keeps(s[1..]) + rest;
      ShownKeeps(s[1..], rest, tags);
    }
  }

  lemma {:induction false} AddsNothing(tag: string, x: Item, items: seq<Item>, rest: seq<Item>)
    requires items != [] && items[0] == x && AddsOnly(tag, items[1..], rest)
    ensures AddsOnly(tag, items, [x] + rest)
  {
    hide Labelled;
    assert ([x] + rest)[1..] == rest;
  }

  lemma {:induction false} AddsHole(tag: string, e: Entry, items: seq<Item>, l: nat, rest: seq<Item>)
    requires l <= |items| && items == Keeps(e.original) + items[l..] && Labelled(e, tag)
    requires AddsOnly(tag, items[l..], rest)
    ensures AddsOnly(tag, items, [Hole(e)] + rest)
  {
    hide ShownFor;
    forall tags: set<string> | tag !in tags
      ensures ShownFor([Hole(e)] + rest, tags) == ShownFor(items, tags)
    {
      ShownKeeps(e.original, items[l..], tags);
      HiddenAway(tag, e, rest, tags);
    }
  }

  lemma {:induction false} HiddenAway(tag: string, e: Entry, rest: seq<Item>, tags: set<string>)
    requires Labelled(e, tag) && tag !in tags
    ensures ShownFor([Hole(e)] + rest, tags) == e.original + ShownFor(rest, tags)
  {
    forall other | Labelled(e, other)
      ensures other !in tags
    {
      LabelUnique(e, tag, other);
    }
    hide Labelled;
    assert ([Hole(e)] + rest)[1..] == rest;
  }

  /** What one pass keeps besides `Lifted`. */
  ghost predicate PassKept(
    tab: Table, p: Pattern, left: bool, items: seq<Item>, out: seq<Item>, ids: nat -> Id, n: nat)
  {
    && Lifted(tab, PATTERNS, items, out, Pass(tab, p, left, Render(items), ids, n))
    && Framed(tab, out) && HeadFrom(tab, p, left, items, out, ids(n)) && AddsOnly(p.name, items, out)
  }

  lemma {:induction false} PassFrames(
    tab: Table, p: Pattern, left: bool, items: seq<Item>, ids: nat -> Id, n: nat) returns (out: seq<Item>)
    requires AllSeparated(tab, PATTERNS) && p in PATTERNS && AllGenuine(tab, PATTERNS, items) && Framed(tab, items)
    ensures PassKept(tab, p, left, items, out, ids, n)
    decreases |items|
  {
    hide Matches, MatchLength, Separated, Genuine, Pass, Framed, PATTERNS, AddsOnly, HeadFrom, AllSeparated;
    if items == [] {
      out := PassFramesEmpty(tab, p, left, ids, n);
    } else if items[0].Hole? || MatchLength(tab, p, left, Render(items)) == 0 {
      TailGenuine(tab, PATTERNS, items, 1);
      FramedTail(tab, items, 1);
      var rest := PassFrames(tab, p, items[0].Keep? && tab.word(items[0].c), items[1..], ids, n);
      out := PassFramesCopy(tab, p, left, items, ids, n, rest);
    } else {
      var l := MatchLength(tab, p, left, Render(items));
      MatchKept(tab, PATTERNS, p, left, items, ids(n));
      TailGenuine(tab, PATTERNS, items, l);
      FramedTail(tab, items, l);
      var rest := PassFrames(tab, p, tab.word(Render(items)[l - 1]), items[l..], ids, n + 1);
      out := PassFramesTake(tab, p, left, items, ids, n, l, rest);
    }
  }

  lemma {:induction false} PassFramesEmpty(tab: Table, p: Pattern, left: bool, ids: nat -> Id, n: nat)
    returns (out: seq<Item>)
    ensures PassKept(tab, p, left, [], out, ids, n)
  {
    hide MatchLength, Pass;
    PassAtEnd(tab, p, left, "", ids, n);
    out := [];
  }

  lemma {:induction false} PassFramesCopy(
    tab: Table, p: Pattern, left: bool, items: seq<Item>, ids: nat -> Id, n: nat, rest: seq<Item>)
    returns (out: seq<Item>)
    requires AllSeparated(tab, PATTERNS) && p in PATTERNS && AllGenuine(tab, PATTERNS, items) && Framed(tab, items)
    requires items != [] && (items[0].Hole? || MatchLength(tab, p, left, Render(items)) == 0)
    requires PassKept(tab, p, items[0].Keep? && tab.word(items[0].c), items[1..], rest, ids, n)
    ensures PassKept(tab, p, left, items, out, ids, n)
  {
    hide Matches, MatchLength, Separated, Genuine, Pass, Framed, PATTERNS, AddsOnly, AllSeparated, Render, Adjacent;
    if items[0].Hole? {
      out := PassLiftsHole(tab, PATTERNS, p, left, items, ids, n, rest);
    } else {
      out := PassLiftsCopy(tab, PATTERNS, p, left, items, ids, n, rest);
    }
    if rest != [] {
      CopyAdjacent(tab, p, left, items, rest, ids(n));
    }
    FramedCons(tab, items[0], rest);
    AddsNothing(p.name, items[0], items, rest);
  }

  lemma {:induction false} CopyAdjacent(
    tab: Table, p: Pattern, left: bool, items: seq<Item>, rest: seq<Item>, id: Id)
    requires AllSeparated(tab, PATTERNS) && p in PATTERNS && Framed(tab, items)
    requires items != [] && (items[0].Hole? || MatchLength(tab, p, left, Render(items)) == 0)
    requires HeadFrom(tab, p, items[0].Keep? && tab.word(items[0].c), items[1..], rest, id) && rest != []
    ensures Adjacent(tab, items[0], rest[0])
  {
    hide MatchLength, Separated, PATTERNS, Labelled, CannotFollow, CannotPrecede;
    assert Adjacent(tab, items[0], items[1]);
    if items[0].Keep? && rest[0] != items[1] {
      assert Render(items) == [items[0].c] + Render(items[1..]);
      StartsRight(tab, p, left, items[0].c, Render(items[1..]));
      OnlyLabel(rest[0].entry, p, id);
    }
  }

  lemma {:induction false} OnlyLabel(e: Entry, p: Pattern, id: Id)
    requires e.placeholder == Placeholder(p.name, id)
    ensures Labelled(e, p.name) && forall tag | Labelled(e, tag) :: tag == p.name
  {
    PlaceholderText(p.name, id);
    assert Labelled(e, p.name);
    forall tag | Labelled(e, tag)
      ensures tag == p.name
    {
      LabelUnique(e, tag, p.name);
    }
  }

  lemma {:induction false} PassFramesTake(
    tab: Table, p: Pattern, left: bool, items: seq<Item>, ids: nat -> Id, n: nat, l: nat, rest: seq<Item>)
    returns (out: seq<Item>)
    requires AllSeparated(tab, PATTERNS) && p in PATTERNS && AllGenuine(tab, PATTERNS, items) && Framed(tab, items)
    requires items != [] && items[0].Keep?
    requires l == MatchLength(tab, p, left, Render(items)) > 0 && l <= |items|
    requires PassKept(tab, p, tab.word(Render(items)[l - 1]), items[l..], rest, ids, n + 1)
    ensures PassKept(tab, p, left, items, out, ids, n)
  {
    hide Matches, MatchLength, Separated, Genuine, Pass, Framed, PATTERNS, AddsOnly, AllSeparated, Adjacent;
    MatchKept(tab, PATTERNS, p, left, items, ids(n));
    out := PassLiftsTake(tab, PATTERNS, p, left, items, ids, n, l, rest);
    var e := Entry(Placeholder(p.name, ids(n)), Render(items)[..l]);
    OnlyLabel(e, p, ids(n));
    if rest != [] {
      TakeAdjacent(tab, p, left, items, e, l, rest, ids(n + 1));
    }
    FramedCons(tab, Hole(e), rest);
    AddsHole(p.name, e, items, l, rest);
  }

  lemma {:induction false} TakeAdjacent(
    tab: Table, p: Pattern, left: bool, items: seq<Item>, e: Entry, l: nat, rest: seq<Item>, next: Id)
    requires AllSeparated(tab, PATTERNS) && p in PATTERNS
    requires l == MatchLength(tab, p, left, Render(items)) > 0 && l <= |items|
    requires items == Keeps(Render(items)[..l]) + items[l..]
    requires forall tag | Labelled(e, tag) :: tag == p.name
    requires HeadFrom(tab, p, tab.word(Render(items)[l - 1]), items[l..], rest, next) && rest != []
    ensures Adjacent(tab, Hole(e), rest[0])
  {
    hide MatchLength, Separated, PATTERNS, Labelled, CannotFollow, CannotPrecede;
    if rest[0].Keep? {
      var t := Render(items);
      KeepsPrefix(t[..l], items[l..]);
      assert t[l] == rest[0].c;
      StopsRight(tab, p, left, t);
    }
  }

  // -------------------------------------------------------------------------
  // All passes
  // -------------------------------------------------------------------------

  function Names(ps: seq<Pattern>): set<string> {
    set p | p in ps :: p.name
  }

  /** Every hole carries one of these labels. */
  ghost predicate AllLabelled(items: seq<Item>, tags: set<string>) {
    forall e | e in Holes(items) :: exists tag | tag in tags :: Labelled(e, tag)
  }

  lemma {:induction false} ShownAll(items: seq<Item>, tags: set<string>)
    requires AllLabelled(items, tags)
    ensures ShownFor(items, tags) == Render(items)
  {
    hide Labelled;
    if items != [] {
      TailHoles(items);
      ShownAll(items[1..], tags);
      if items[0].Hole? { assert items[0].entry in Holes(items); }
    }
  }

  lemma {:induction false} LabelledAfter(
    tab: Table, p: Pattern, items: seq<Item>, out: seq<Item>, ids: nat -> Id, n: nat, tags: set<string>)
    requires AllLabelled(items, tags) && Lifted(tab, PATTERNS, items, out, Pass(tab, p, false, Render(items), ids, n))
    ensures AllLabelled(out, tags + {p.name})
  {
    hide Pass, Labelled, Render, Source, AllGenuine, PATTERNS;
    var log := Pass(tab, p, false, Render(items), ids, n).log;
    forall e | e in Holes(out)
      ensures exists tag | tag in tags + {p.name} :: Labelled(e, tag)
    {
      if e !in Holes(items) {
        assert e in multiset(log);
        var i: nat :| i < |log| && log[i] == e;
        PassDrawsIds(tab, p, false, Render(items), ids, n, i);
        OnlyLabel(e, p, ids(n + i));
      }
    }
  }

  /** Holes with none of these labels may be there in addition. */
  ghost predicate AddsBeyond(items: seq<Item>, out: seq<Item>, names: set<string>) {
    forall tags: set<string> | tags !! names :: ShownFor(out, tags) == ShownFor(items, tags)
  }

  /** Each stage of the passes can still be read off the final items. */
  ghost predicate StagesShown(
    tab: Table, done: set<string>, ps: seq<Pattern>, t: string, out: seq<Item>, ids: nat -> Id, n: nat)
  {
    forall k: nat | k <= |ps| :: ShownFor(out, done + Names(ps[..k])) == Passes(tab, ps[..k], t, ids, n).text
  }

  predicate FreshNames(done: set<string>, ps: seq<Pattern>) {
    && done !! Names(ps)
    && forall i, j | 0 <= i < j < |ps| :: ps[i].name != ps[j].name
  }

  ghost predicate PassesKept(
    tab: Table, done: set<string>, ps: seq<Pattern>, items: seq<Item>, out: seq<Item>, ids: nat -> Id, n: nat)
  {
    && Lifted(tab, PATTERNS, items, out, Passes(tab, ps, Render(items), ids, n))
    && Framed(tab, out) && AddsBeyond(items, out, Names(ps)) && StagesShown(tab, done, ps, Render(items), out, ids, n)
  }

  lemma {:induction false} RestFresh(done: set<string>, ps: seq<Pattern>)
    requires ps != [] && FreshNames(done, ps)
    ensures FreshNames(done + {ps[0].name}, ps[1..]) && Names(ps) == {ps[0].name} + Names(ps[1..])
    ensures ps[0].name !in done
  {
    assert ps == [ps[0]] + ps[1..];
    forall x | x in Names(ps[1..])
      ensures x != ps[0].name && x !in done
    {
      var i: nat :| 0 < i < |ps| && ps[i].name == x;
      assert ps[i].name in Names(ps);
    }
    assert ps[0].name in Names(ps);
  }

  lemma {:induction false} NoStages(tab: Table, done: set<string>, items: seq<Item>, ids: nat -> Id, n: nat)
    requires AllLabelled(items, done) && AllGenuine(tab, PATTERNS, items) && Framed(tab, items)
    ensures PassesKept(tab, done, [], items, items, ids, n)
  {
    hide Framed, Genuine, Holes, ShownFor;
    PassesAtEnd(tab, [], Render(items), ids, n);
    ShownAll(items, done);
    assert done + Names([]) == done;
  }

  lemma {:induction false} BeyondBoth(ps: seq<Pattern>, items: seq<Item>, mid: seq<Item>, out: seq<Item>)
    requires ps != [] && Names(ps) == {ps[0].name} + Names(ps[1..])
    requires AddsOnly(ps[0].name, items, mid) && AddsBeyond(mid, out, Names(ps[1..]))
    ensures AddsBeyond(items, out, Names(ps))
  {
    hide ShownFor;
  }

  lemma {:induction false} StagesJoin(
    tab: Table, done: set<string>, ps: seq<Pattern>, items: seq<Item>, mid: seq<Item>, out: seq<Item>,
    ids: nat -> Id, n: nat)
    requires ps != [] && FreshNames(done, ps) && ShownFor(items, done) == Render(items)
    requires AddsBeyond(items, out, Names(ps))
    requires var first := Pass(tab, ps[0], false, Render(items), ids, n);
             && Render(mid) == first.text
             && StagesShown(tab, done + {ps[0].name}, ps[1..], first.text, out, ids, n + |first.log|)
    ensures StagesShown(tab, done, ps, Render(items), out, ids, n)
  {
    hide ShownFor, Pass, Passes, Render;
    var first := Pass(tab, ps[0], false, Render(items), ids, n);
    forall k: nat | k <= |ps|
      ensures ShownFor(out, done + Names(ps[..k])) == Passes(tab, ps[..k], Render(items), ids, n).text
    {
      if k == 0 {
        PassesAtEnd(tab, [], Render(items), ids, n);
        assert ps[..0] == [] && done + Names([]) == done;
      } else {
        PassesUnfold(tab, ps[..k], Render(items), ids, n);
        assert ps[..k][1..] == ps[1..][..k - 1] && ps[..k][0] == ps[0];
        assert ps[..k] == [ps[0]] + ps[1..][..k - 1];
        assert done + Names(ps[..k]) == done + {ps[0].name} + Names(ps[1..][..k - 1]);
      }
    }
  }

  lemma {:induction false} PassesJoin(
    tab: Table, done: set<string>, ps: seq<Pattern>, items: seq<Item>, mid: seq<Item>, out: seq<Item>,
    ids: nat -> Id, n: nat)
    requires ps != [] && FreshNames(done, ps) && AllLabelled(items, done)
        && PassKept(tab, ps[0], false, items, mid, ids, n)
    requires var next := n + |Pass(tab, ps[0], false, Render(items), ids, n).log|;
             PassesKept(tab, done + {ps[0].name}, ps[1..], mid, out, ids, next)
    ensures PassesKept(tab, done, ps, items, out, ids, n)
  {
    hide Pass, Passes, Holes, Render, Source, Framed, PATTERNS, AllGenuine, ShownFor, AddsOnly, AddsBeyond, StagesShown,
        AllLabelled, FreshNames, HeadFrom, Names;
    var first := Pass(tab, ps[0], false, Render(items), ids, n);
    RestFresh(done, ps);
    PassesUnfold(tab, ps, Render(items), ids, n);
    LiftedTransitive(tab, PATTERNS, items, mid, out, first,
                     Passes(tab, ps[1..], first.text, ids, n + |first.log|));
    BeyondBoth(ps, items, mid, out);
    ShownAll(items, done);
    StagesJoin(tab, done, ps, items, mid, out, ids, n);
  }

  lemma {:induction false} PassesFrame(
    tab: Table, done: set<string>, ps: seq<Pattern>, items: seq<Item>, ids: nat -> Id, n: nat)
    returns (out: seq<Item>)
    requires AllSeparated(tab, PATTERNS) && AllGenuine(tab, PATTERNS, items) && Framed(tab, items)
    requires (forall p | p in ps :: p in PATTERNS) && FreshNames(done, ps) && AllLabelled(items, done)
    ensures PassesKept(tab, done, ps, items, out, ids, n)
    decreases |ps|
  {
    hide Pass, Passes, Separated, Genuine, Holes, Render, Source, Framed, PATTERNS, AllSeparated, AllGenuine, ShownFor,
        AddsOnly, AddsBeyond, StagesShown, AllLabelled, FreshNames, HeadFrom, Names;
    if ps == [] {
      out := items;
      NoStages(tab, done, items, ids, n);
    } else {
      var p := ps[0];
      var mid := PassFrames(tab, p, false, items, ids, n);
      LabelledAfter(tab, p, items, mid, ids, n, done);
      RestFresh(done, ps);
      var next := n + |Pass(tab, p, false, Render(items), ids, n).log|;
      out := PassesFrame(tab, done + {p.name}, ps[1..], mid, ids, next);
      PassesJoin(tab, done, ps, items, mid, out, ids, n);
    }
  }

  // -------------------------------------------------------------------------
  // In plain terms
  // -------------------------------------------------------------------------

  ghost predicate KeyFree(tab: Table, t: string) {
    forall k, e, prefix, gap, secret | 0 <= k < e <= |t| :: !IsKey(tab, t[k..e], prefix, gap, secret)
  }

  ghost predicate EmailFree(t: string) {
    forall k, e, local, host, tld | 0 <= k < e <= |t| :: !IsEmail(t[k..e], local, host, tld)
  }

  ghost predicate PhoneFree(tab: Table, t: string) {
    forall k, e, p | 0 <= k < e <= |t| :: !IsPhone(tab, t[k..e], p)
  }

  lemma {:induction false} CleanMeansFree(tab: Table, p: Pattern, t: string, k: nat, e: nat)
    requires Clean(tab, p, false, t) && !p.anchored && k < e <= |t|
    ensures !Matches(tab, p.body, t[k..e])
  {
    hide MatchLength, Matches;
    CleanTail(tab, p, false, t, k);
    MatchLengthExact(tab, p, LeftOf(tab, false, t, k), t[k..]);
    assert t[k..][..e - k] == t[k..e];
    assert !MatchesAt(tab, p, LeftOf(tab, false, t, k), t[k..], e - k);
  }

  lemma {:induction false} StageClean(tab: Table, text: string, ids: nat -> Id, k: nat, j: nat)
    requires j < k <= |PATTERNS|
    ensures Clean(tab, PATTERNS[j], false, Passes(tab, PATTERNS[..k], text, ids, 0).text)
  {
    hide Passes, Clean, Separated;
    PatternsSeparated(tab);
    PatternsAnchoredLast();
    var ps := PATTERNS[..k];
    assert [] + ps == ps;
    assert ps[j] == PATTERNS[j];
    hide PATTERNS;
    PassesClean(tab, [], ps, text, ids, 0, ps[j]);
  }

  lemma {:induction false} StageNames()
    ensures FreshNames({}, PATTERNS)
    ensures {} + Names(PATTERNS[..1]) == {"api_key"}
    ensures {} + Names(PATTERNS[..2]) == {"api_key", "email"}
    ensures {} + Names(PATTERNS[..3]) == {"api_key", "email", "phone"}
  {
    assert PATTERNS[..1] == [API_KEY] && PATTERNS[..2] == [API_KEY, EMAIL] && PATTERNS[..3] == [API_KEY, EMAIL, PHONE];
  }

  /**
    The output as the prompt with pieces hidden. Every piece reaches as far as it can on both sides. And the passes
    come in the order keys, email addresses, phone numbers: with the keys alone hidden no key is left, with keys and
    addresses hidden no address, and with phone numbers hidden as well no phone number, so that nothing a later pass
    hides contains what an earlier one looks for.
  */
  lemma {:induction false} TokenisedExtent(tab: Table, text: string, ids: nat -> Id) returns (items: seq<Item>)
    ensures Render(items) == Tokenised(tab, text, ids).text && Source(items) == text
    ensures Holes(items) == multiset(Tokenised(tab, text, ids).log) && AllGenuine(tab, PATTERNS, items)
    ensures Framed(tab, items)
    ensures KeyFree(tab, ShownFor(items, {"api_key"}))
    ensures EmailFree(ShownFor(items, {"api_key", "email"}))
    ensures PhoneFree(tab, ShownFor(items, {"api_key", "email", "phone"}))
  {
    hide Passes, Separated, Genuine, Holes, Render, Source, Clean, ShownFor, IsKey, IsEmail, IsPhone, PATTERNS;
    PatternsSeparated(tab);
    RenderKeeps(text);
    StageNames();
    NoHolesYet(tab, text);
    items := PassesFrame(tab, {}, PATTERNS, Keeps(text), ids, 0);
    FivePatterns();
    StageClean(tab, text, ids, 1, 0);
    StageClean(tab, text, ids, 2, 1);
    StageClean(tab, text, ids, 3, 2);
    KeysGone(tab, ShownFor(items, {"api_key"}));
    EmailsGone(tab, ShownFor(items, {"api_key", "email"}));
    PhonesGone(tab, ShownFor(items, {"api_key", "email", "phone"}));
  }

  lemma {:induction false} FivePatterns()
    ensures |PATTERNS| == 5 && PATTERNS[0] == API_KEY && PATTERNS[1] == EMAIL && PATTERNS[2] == PHONE
  {
  }

  lemma {:induction false} NoHolesYet(tab: Table, text: string)
    ensures AllGenuine(tab, PATTERNS, Keeps(text)) && Framed(tab, Keeps(text)) && AllLabelled(Keeps(text), {})
  {
    RenderKeeps(text);
  }

  lemma {:induction false} KeysGone(tab: Table, t: string)
    requires Clean(tab, API_KEY, false, t)
    ensures KeyFree(tab, t)
  {
    hide Matches, IsKey, Clean;
    forall k, e, prefix, gap, secret | 0 <= k < e <= |t|
      ensures !IsKey(tab, t[k..e], prefix, gap, secret)
    {
      CleanMeansFree(tab, API_KEY, t, k, e);
      KeyPatternMeans(tab, t[k..e]);
    }
  }

  lemma {:induction false} EmailsGone(tab: Table, t: string)
    requires Clean(tab, EMAIL, false, t)
    ensures EmailFree(t)
  {
    hide Matches, IsEmail, Clean;
    forall k, e, local, host, tld | 0 <= k < e <= |t|
      ensures !IsEmail(t[k..e], local, host, tld)
    {
      CleanMeansFree(tab, EMAIL, t, k, e);
      EmailPatternMeans(tab, t[k..e]);
    }
  }

  lemma {:induction false} PhonesGone(tab: Table, t: string)
    requires Clean(tab, PHONE, false, t)
    ensures PhoneFree(tab, t)
  {
    hide Matches, IsPhone, Clean;
    forall k, e, p | 0 <= k < e <= |t|
      ensures !IsPhone(tab, t[k..e], p)
    {
      CleanMeansFree(tab, PHONE, t, k, e);
      PhonePatternMeans(tab, t[k..e]);
    }
  }
}
