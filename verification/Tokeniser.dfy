/** `tokenise` and `PiiMap`: the passes that write placeholders, and the replacements that undo them. */
module Tokeniser {
  import opened Regex
  import opened PiiPatterns
  import opened Substitution

  // -------------------------------------------------------------------------
  // Specification
  // -------------------------------------------------------------------------

  /** A rewritten text, with the placeholders written so far and what each stands for, in writing order. */
  datatype Scan = Scan(text: string, log: seq<Entry>)

  /**
    `replace_all` with one pattern: leftmost, non-overlapping. `left` says whether a word character
    precedes `s`; `ids(n)` is the n-th identifier the run draws.
  */
  function Pass(tab: Table, p: Pattern, left: bool, s: string, ids: nat -> Id, n: nat): Scan
    decreases |s|
  {
    if s == "" then Scan("", [])
    else
      var l := MatchLength(tab, p, left, s);
      if l == 0 then
        var r := Pass(tab, p, tab.word(s[0]), s[1..], ids, n);
        Scan([s[0]] + r.text, r.log)
      else
        var ph := Placeholder(p.name, ids(n));
        var r := Pass(tab, p, tab.word(s[l - 1]), s[l..], ids, n + 1);
        Scan(ph + r.text, [Entry(ph, s[..l])] + r.log)
  }

  function Passes(tab: Table, ps: seq<Pattern>, s: string, ids: nat -> Id, n: nat): Scan {
    if ps == [] then Scan(s, [])
    else
      var first := Pass(tab, ps[0], false, s, ids, n);
      var rest := Passes(tab, ps[1..], first.text, ids, n + |first.log|);
      Scan(rest.text, first.log + rest.log)
  }

  function Tokenised(tab: Table, text: string, ids: nat -> Id): Scan {
    Passes(tab, PATTERNS, text, ids, 0)
  }

  /** The hash map after inserting the entries of `log` into `m`, the last one winning. */
  function Inserted(m: map<string, string>, log: seq<Entry>): map<string, string>
    decreases |log|
  {
    if log == [] then m else Inserted(m[log[0].placeholder := log[0].original], log[1..])
  }

  function MapOf(log: seq<Entry>): map<string, string> {
    Inserted(map[], log)
  }

  /** Rust's `str::replace` for any pattern: an empty one matches around every character. */
  function ReplaceAny(t: string, p: string, o: string): string {
    if p != "" then Replace(t, p, o) else Interleave(t, o)
  }

  function Interleave(t: string, o: string): string {
    if t == "" then o else o + [t[0]] + Interleave(t[1..], o)
  }

  /** An empty pattern matches before, between and after the characters of any text. */
  lemma {:induction false} EmptyMatchesEverywhere(a: string, c: char, b: string, o: string)
    ensures ReplaceAny("", "", o) == o
    ensures ReplaceAny(a + [c] + b, "", o) == ReplaceAny(a, "", o) + [c] + ReplaceAny(b, "", o)
  {
    if a != "" {
      assert (a + [c] + b)[1..] == a[1..] + [c] + b;
      EmptyMatchesEverywhere(a[1..], c, b, o);
    } else {
      assert (a + [c] + b)[1..] == b;
    }
  }

  /** One iteration order of a hash map. */
  ghost predicate Enumerates(order: seq<string>, keys: set<string>) {
    && (forall p :: p in order <==> p in keys)
    && (forall i, j | 0 <= i < j < |order| :: order[i] != order[j])
  }

  function DetokeniseIn(order: seq<string>, m: map<string, string>, t: string): string
    requires forall p | p in order :: p in m
  {
    if order == [] then t else DetokeniseIn(order[1..], m, ReplaceAny(t, order[0], m[order[0]]))
  }

  // -------------------------------------------------------------------------
  // The program
  // -------------------------------------------------------------------------

  class PiiMap {
    var entries: map<string, string>

    constructor ()
      ensures entries == map[]
    {
      entries := map[];
    }

    method Insert(placeholder: string, original: string)
      modifies this
      ensures entries == old(entries)[placeholder := original]
    {
      entries := entries[placeholder := original];
    }

    /** The entries are visited in some order the hash map chooses. */
    method Detokenize(text: string) returns (result: string)
      ensures exists order | Enumerates(order, entries.Keys) :: result == DetokeniseIn(order, entries, text)
    {
      result := text;
      var left := entries.Keys;
      ghost var done: seq<string> := [];
      while left != {}
        invariant left <= entries.Keys
        invariant Enumerates(done, entries.Keys - left)
        invariant forall p | p in done :: p in entries
        invariant result == DetokeniseIn(done, entries, text)
        decreases left
      {
        var p :| p in left;
        DetokeniseSnoc(done, entries, text, p);
        result := ReplaceAny(result, p, entries[p]);
        left := left - {p};
        done := done + [p];
      }
    }
  }

  lemma {:induction false} DetokeniseSnoc(order: seq<string>, m: map<string, string>, t: string, p: string)
    requires p in m && forall q | q in order :: q in m
    ensures DetokeniseIn(order + [p], m, t) == ReplaceAny(DetokeniseIn(order, m, t), p, m[p])
  {
    if order == [] {
      assert [p][1..] == [];
    } else {
      assert (order + [p])[1..] == order[1..] + [p];
      DetokeniseSnoc(order[1..], m, ReplaceAny(t, order[0], m[order[0]]), p);
    }
  }

  function Append(a: Scan, b: Scan): Scan {
    Scan(a.text + b.text, a.log + b.log)
  }

  lemma {:induction false} AppendAssociative(a: Scan, b: Scan, c: Scan)
    ensures Append(Append(a, b), c) == Append(a, Append(b, c))
  {
    assert a.text + b.text + c.text == a.text + (b.text + c.text);
    assert a.log + b.log + c.log == a.log + (b.log + c.log);
  }

  lemma {:induction false} PassCopies(tab: Table, p: Pattern, left: bool, s: string, i: nat, ids: nat -> Id, n: nat)
    requires i < |s| && MatchLength(tab, p, left, s[i..]) == 0
    ensures Pass(tab, p, left, s[i..], ids, n) ==
            Append(Scan([s[i]], []), Pass(tab, p, tab.word(s[i]), s[i + 1..], ids, n))
  {
    assert s[i..][1..] == s[i + 1..];
  }

  lemma {:induction false} PassReplaces(
      tab: Table, p: Pattern, left: bool, s: string, i: nat, ids: nat -> Id, n: nat, l: nat)
    requires i < |s| && l == MatchLength(tab, p, left, s[i..]) > 0
    ensures i + l <= |s|
    ensures var ph := Placeholder(p.name, ids(n));
            Pass(tab, p, left, s[i..], ids, n) ==
            Append(Scan(ph, [Entry(ph, s[i..i + l])]), Pass(tab, p, tab.word(s[i + l - 1]), s[i + l..], ids, n + 1))
  {
    assert s[i..][..l] == s[i..i + l];
    assert s[i..][l..] == s[i + l..];
  }

  /** One pass over `s`, inserting into `pii` as the closure passed to `replace_all` does. */
  method ReplaceAll(tab: Table, p: Pattern, s: string, ids: nat -> Id, n: nat, pii: PiiMap)
    returns (result: string, next: nat)
    modifies pii
    ensures var scan := Pass(tab, p, false, s, ids, n);
            && result == scan.text
            && next == n + |scan.log|
            && pii.entries == Inserted(old(pii.entries), scan.log)
  {
    hide Pass, MatchLength, Placeholder, Inserted;
    result, next := "", n;
    var i, left := 0, false;
    PassFromStart(tab, p, s, ids, n, pii.entries);
    ghost var done, step := Scan("", []), Scan("", []);
    while i < |s|
      invariant 0 <= i <= |s|
      invariant Append(done, Pass(tab, p, left, s[i..], ids, next)) == Pass(tab, p, false, s, ids, n)
      invariant result == done.text && next == n + |done.log|
      invariant pii.entries == Inserted(old(pii.entries), done.log)
    {
      var l := MatchLength(tab, p, left, s[i..]);
      if l == 0 {
        PassCopies(tab, p, left, s, i, ids, next);
        step := Scan([s[i]], []);
        result := result + [s[i]];
        left := tab.word(s[i]);
        i := i + 1;
      } else {
        PassReplaces(tab, p, left, s, i, ids, next, l);
        var placeholder := Placeholder(p.name, ids(next));
        step := Scan(placeholder, [Entry(placeholder, s[i..i + l])]);
        pii.Insert(placeholder, s[i..i + l]);
        result := result + placeholder;
        next := next + 1;
        left := tab.word(s[i + l - 1]);
        i := i + l;
      }
      AppendAssociative(done, step, Pass(tab, p, left, s[i..], ids, next));
      InsertedOne(old(pii.entries), done.log, step.log);
      done := Append(done, step);
    }
    PassAtEnd(tab, p, left, s, ids, next);
    assert done.text + "" == done.text && done.log + [] == done.log;
  }

  lemma {:induction false} PassFromStart(
      tab: Table, p: Pattern, s: string, ids: nat -> Id, n: nat, m: map<string, string>)
    ensures Append(Scan("", []), Pass(tab, p, false, s[0..], ids, n)) == Pass(tab, p, false, s, ids, n)
    ensures Inserted(m, []) == m
  {
    assert s[0..] == s;
  }

  lemma {:induction false} PassAtEnd(tab: Table, p: Pattern, left: bool, s: string, ids: nat -> Id, n: nat)
    ensures Pass(tab, p, left, s[|s|..], ids, n) == Scan("", [])
  {
  }

  lemma {:induction false} InsertedOne(m: map<string, string>, log: seq<Entry>, step: seq<Entry>)
    requires |step| <= 1
    ensures Inserted(m, log + step) ==
            if step == [] then Inserted(m, log)
            else Inserted(m, log)[step[0].placeholder := step[0].original]
  {
    InsertedConcat(m, log, step);
  }

  method Tokenise(tab: Table, text: string, ids: nat -> Id) returns (result: string, pii: PiiMap)
    ensures fresh(pii)
    ensures result == Tokenised(tab, text, ids).text
    ensures pii.entries == MapOf(Tokenised(tab, text, ids).log)
  {
    result, pii := RunPasses(tab, PATTERNS, text, ids);
  }

  method RunPasses(tab: Table, ps: seq<Pattern>, text: string, ids: nat -> Id) returns (result: string, pii: PiiMap)
    ensures fresh(pii)
    ensures result == Passes(tab, ps, text, ids, 0).text
    ensures pii.entries == MapOf(Passes(tab, ps, text, ids, 0).log)
  {
    hide Pass, Passes, Inserted;
    pii := new PiiMap();
    result := text;
    var n: nat := 0;
    ghost var log: seq<Entry> := [];
    PassesFromStart(tab, ps, text, ids);
    for k := 0 to |ps|
      invariant fresh(pii)
      invariant n == |log| && pii.entries == MapOf(log)
      invariant Append(Scan("", log), Passes(tab, ps[k..], result, ids, n)) == Passes(tab, ps, text, ids, 0)
    {
      ghost var first := Pass(tab, ps[k], false, result, ids, n);
      PassesStep(tab, ps, k, result, ids, n, log);
      InsertedConcat(map[], log, first.log);
      result, n := ReplaceAll(tab, ps[k], result, ids, n, pii);
      log := log + first.log;
    }
    PassesAtEnd(tab, ps, result, ids, n);
    assert log + [] == log;
  }

  lemma {:induction false} PassesFromStart(tab: Table, ps: seq<Pattern>, s: string, ids: nat -> Id)
    ensures Append(Scan("", []), Passes(tab, ps[0..], s, ids, 0)) == Passes(tab, ps, s, ids, 0)
    ensures MapOf([]) == map[]
  {
    assert ps[0..] == ps;
  }

  lemma {:induction false} PassesAtEnd(tab: Table, ps: seq<Pattern>, s: string, ids: nat -> Id, n: nat)
    ensures Passes(tab, ps[|ps|..], s, ids, n) == Scan(s, [])
  {
  }

  lemma {:induction false} PassesStep(
      tab: Table, ps: seq<Pattern>, k: nat, s: string, ids: nat -> Id, n: nat, log: seq<Entry>)
    requires k < |ps|
    ensures var first := Pass(tab, ps[k], false, s, ids, n);
            Append(Scan("", log), Passes(tab, ps[k..], s, ids, n)) ==
            Append(Scan("", log + first.log), Passes(tab, ps[k + 1..], first.text, ids, n + |first.log|))
  {
    hide Pass, Passes;
    var first := Pass(tab, ps[k], false, s, ids, n);
    var rest := Passes(tab, ps[k + 1..], first.text, ids, n + |first.log|);
    PassesUnfold(tab, ps[k..], s, ids, n);
    assert ps[k..][1..] == ps[k + 1..] && ps[k..][0] == ps[k];
    assert log + (first.log + rest.log) == log + first.log + rest.log;
  }

  lemma {:induction false} PassesUnfold(tab: Table, ps: seq<Pattern>, s: string, ids: nat -> Id, n: nat)
    requires ps != []
    ensures var first := Pass(tab, ps[0], false, s, ids, n);
            var rest := Passes(tab, ps[1..], first.text, ids, n + |first.log|);
            Passes(tab, ps, s, ids, n) == Scan(rest.text, first.log + rest.log)
  {
    hide Pass;
  }

  lemma {:induction false} InsertedConcat(m: map<string, string>, a: seq<Entry>, b: seq<Entry>)
    ensures Inserted(m, a + b) == Inserted(Inserted(m, a), b)
    decreases |a|
  {
    if a == [] {
      assert a + b == b;
    } else {
      assert (a + b)[1..] == a[1..] + b;
      InsertedConcat(m[a[0].placeholder := a[0].original], a[1..], b);
    }
  }
}
