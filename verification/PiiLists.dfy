/** The preference lists of the search: what a greedy repetition lists, and when the preferred length is greatest. */
module PiiLists {
  import opened Regex
  import opened PiiPatterns
  import opened PiiShapes
  import opened PiiChains

  // -------------------------------------------------------------------------
  // A repeated class: from the whole run down to the least number allowed
  // -------------------------------------------------------------------------

  /** n, n - 1, ..., lo. */
  function Down(n: nat, lo: nat): (ls: seq<nat>)
    ensures forall l :: l in ls <==> lo <= l <= n
    ensures forall i | 0 <= i < |ls| :: lo <= ls[i] <= n
  {
    if n < lo then [] else if n == lo then [n] else [n] + Down(n - 1, lo)
  }

  /** How many characters at the front of `s` are in the class. */
  function Run(tab: Table, cls: Class, s: string): (n: nat)
    ensures n <= |s| && forall i | 0 <= i < n :: In(tab, cls, s[i])
    ensures n < |s| ==> !In(tab, cls, s[n])
  {
    if s == "" || !In(tab, cls, s[0]) then 0 else 1 + Run(tab, cls, s[1..])
  }

  function Capped(n: nat, hi: Limit): nat {
    if hi.AtMost? && hi.n < n then hi.n else n
  }

  lemma {:induction false} DownShift(n: nat, lo: nat)
    requires n > 0
    ensures Down(n, lo) == Shift(1, Down(n - 1, Pred(lo))) + if lo == 0 then [0] else []
  {
    if n > 1 && n > lo {
      DownShift(n - 1, lo);
    }
  }

  lemma {:induction false} RunLengths(tab: Table, cls: Class, lo: nat, hi: Limit, s: string)
    ensures RepLengths(tab, Set(cls), lo, hi, s) == Down(Capped(Run(tab, cls, s), hi), lo)
    decreases |s|
  {
    hide Lengths, RepLengths, Down, Shift, In;
    var n := Capped(Run(tab, cls, s), hi);
    if n > 0 {
      RunLengths(tab, cls, Pred(lo), hi.Less(), s[1..]);
      OneIteration(tab, cls, lo, hi, s);
      DownShift(n, lo);
    } else {
      NoIteration(tab, cls, lo, hi, s);
      DownZero(lo);
    }
  }

  lemma {:induction false} DownZero(lo: nat)
    ensures Down(0, lo) == if lo == 0 then [0] else []
  {
  }

  lemma {:induction false} OneIteration(tab: Table, cls: Class, lo: nat, hi: Limit, s: string)
    requires s != "" && In(tab, cls, s[0]) && hi.Positive()
    ensures RepLengths(tab, Set(cls), lo, hi, s) ==
            Shift(1, RepLengths(tab, Set(cls), Pred(lo), hi.Less(), s[1..])) + if lo == 0 then [0] else []
  {
    assert Lengths(tab, Set(cls), s) == [1] && [1][1..] == [];
    var later := Shift(1, RepLengths(tab, Set(cls), Pred(lo), hi.Less(), s[1..]));
    assert RepEach(tab, [1], Set(cls), Pred(lo), hi.Less(), s) == later + [];
  }

  lemma {:induction false} NoIteration(tab: Table, cls: Class, lo: nat, hi: Limit, s: string)
    requires s == "" || !In(tab, cls, s[0]) || !hi.Positive()
    ensures RepLengths(tab, Set(cls), lo, hi, s) == if lo == 0 then [0] else []
  {
    if hi.Positive() {
      assert Lengths(tab, Set(cls), s) == [];
    }
  }

  lemma {:induction false} ClassLengths(tab: Table, cls: Class, lo: nat, hi: Limit, s: string)
    ensures Lengths(tab, Rep(Set(cls), lo, hi), s) == Down(Capped(Run(tab, cls, s), hi), lo)
  {
    RunLengths(tab, cls, lo, hi, s);
  }

  // -------------------------------------------------------------------------
  // Shapes of a preference list
  // -------------------------------------------------------------------------

  predicate Descending(ls: seq<nat>) {
    forall i, j | 0 <= i < j < |ls| :: ls[i] >= ls[j]
  }

  /** The preferred length is the greatest. */
  predicate Tall(ls: seq<nat>) {
    forall i | 0 <= i < |ls| :: ls[i] <= ls[0]
  }

  lemma {:induction false} DownDescends(n: nat, lo: nat)
    ensures Descending(Down(n, lo))
  {
    if n > lo { DownDescends(n - 1, lo); }
  }

  lemma {:induction false} PickDescending(tab: Table, p: Pattern, left: bool, s: string, ls: seq<nat>, l: nat)
    requires Within(ls, |s|) && Descending(ls) && 0 < l <= |s| && l in ls && AnchorsHold(tab, p, left, s, l)
    ensures l <= Pick(tab, p, left, s, ls)
  {
    if !(ls[0] > 0 && AnchorsHold(tab, p, left, s, ls[0])) {
      assert ls == [ls[0]] + ls[1..];
      PickDescending(tab, p, left, s, ls[1..], l);
    }
  }

  lemma {:induction false} PickTall(tab: Table, p: Pattern, left: bool, s: string, ls: seq<nat>, l: nat)
    requires !p.anchored && Within(ls, |s|) && Tall(ls) && 0 < l && l in ls
    ensures l <= Pick(tab, p, left, s, ls)
  {
  }

  /** Where a list for `Then` comes from. */
  lemma {:induction false} ThenMember(tab: Table, firsts: seq<nat>, b: Expr, s: string, x: nat) returns (i: nat)
    requires Within(firsts, |s|) && x in ThenLengths(tab, firsts, b, s)
    ensures i < |firsts| && firsts[i] <= x && x - firsts[i] in Lengths(tab, b, s[firsts[i]..])
    decreases |firsts|
  {
    var k := firsts[0];
    if x in Shift(k, Lengths(tab, b, s[k..])) {
      ShiftMember(k, Lengths(tab, b, s[k..]), x);
      i := 0;
    } else {
      var j := ThenMember(tab, firsts[1..], b, s, x);
      i := j + 1;
    }
  }

  /** What follows an earlier first part never ends before what follows a later one. */
  ghost predicate InOrder(tab: Table, firsts: seq<nat>, b: Expr, s: string)
    requires Within(firsts, |s|)
  {
    forall i, j, x, y | 0 <= i < j < |firsts| && x in Lengths(tab, b, s[firsts[i]..])
        && y in Lengths(tab, b, s[firsts[j]..]) ::
      firsts[i] + x >= firsts[j] + y
  }

  lemma {:induction false} ThenDescends(tab: Table, firsts: seq<nat>, b: Expr, s: string)
    requires Within(firsts, |s|) && InOrder(tab, firsts, b, s)
    requires forall i | 0 <= i < |firsts| :: Descending(Lengths(tab, b, s[firsts[i]..]))
    ensures Descending(ThenLengths(tab, firsts, b, s))
    decreases |firsts|
  {
    hide Lengths;
    if firsts != [] {
      var k, rest := firsts[0], firsts[1..];
      assert forall i | 0 <= i < |rest| :: rest[i] == firsts[i + 1];
      ThenDescends(tab, rest, b, s);
      var block, more := Shift(k, Lengths(tab, b, s[k..])), ThenLengths(tab, rest, b, s);
      forall i, j | 0 <= i < |block| && 0 <= j < |more|
        ensures block[i] >= more[j]
      {
        var d := ThenMember(tab, rest, b, s, more[j]);
        assert Lengths(tab, b, s[k..])[i] in Lengths(tab, b, s[firsts[0]..]);
        assert more[j] - rest[d] in Lengths(tab, b, s[firsts[d + 1]..]);
      }
    }
  }

  /** The first first part that can be followed at all leads furthest. */
  ghost predicate FirstFurthest(tab: Table, firsts: seq<nat>, b: Expr, s: string)
    requires Within(firsts, |s|)
  {
    forall i, j, y | 0 <= i < j < |firsts| && Lengths(tab, b, s[firsts[i]..]) != []
        && y in Lengths(tab, b, s[firsts[j]..]) ::
      firsts[i] + Lengths(tab, b, s[firsts[i]..])[0] >= firsts[j] + y
  }

  lemma {:induction false} ThenIsTall(tab: Table, firsts: seq<nat>, b: Expr, s: string)
    requires Within(firsts, |s|) && FirstFurthest(tab, firsts, b, s)
    requires forall i | 0 <= i < |firsts| :: Tall(Lengths(tab, b, s[firsts[i]..]))
    ensures Tall(ThenLengths(tab, firsts, b, s))
    decreases |firsts|
  {
    hide Lengths;
    if firsts != [] {
      var k, rest := firsts[0], firsts[1..];
      assert forall i | 0 <= i < |rest| :: rest[i] == firsts[i + 1];
      ThenIsTall(tab, rest, b, s);
      var block, more := Shift(k, Lengths(tab, b, s[k..])), ThenLengths(tab, rest, b, s);
      if block != [] {
        forall j | 0 <= j < |more|
          ensures more[j] <= block[0]
        {
          var d := ThenMember(tab, rest, b, s, more[j]);
          assert more[j] - rest[d] in Lengths(tab, b, s[firsts[d + 1]..]);
        }
      } else {
        assert block + more == more;
      }
    }
  }

  /** Nothing starts where nothing is accepted. */
  lemma {:induction false} NoLengths(tab: Table, r: Expr, s: string)
    requires forall l: nat | l <= |s| :: !Matches(tab, r, s[..l])
    ensures Lengths(tab, r, s) == []
  {
    var ls := Lengths(tab, r, s);
    if ls != [] {
      LengthsExact(tab, r, s, ls[0]);
      assert false;
    }
  }

  /** Every accepted string begins with such a character. */
  ghost predicate BeginsWith(tab: Table, r: Expr, f: char -> bool) {
    forall u | Matches(tab, r, u) :: u != "" && f(u[0])
  }

  lemma {:induction false} CannotBegin(tab: Table, r: Expr, f: char -> bool, s: string)
    requires BeginsWith(tab, r, f) && (s == "" || !f(s[0]))
    ensures Lengths(tab, r, s) == []
  {
    hide Matches;
    forall l: nat | l <= |s|
      ensures !Matches(tab, r, s[..l])
    {
    }
    NoLengths(tab, r, s);
  }

  lemma {:induction false} ThenBegins(tab: Table, a: Expr, b: Expr, f: char -> bool)
    requires BeginsWith(tab, a, f)
    ensures BeginsWith(tab, Then(a, b), f)
  {
    hide Matches;
    forall w | Matches(tab, Then(a, b), w)
      ensures w != "" && f(w[0])
    {
      var u, v := Parted(tab, a, b, w);
    }
  }

  lemma {:induction false} SetBegins(tab: Table, cls: Class, f: char -> bool)
    requires forall c | In(tab, cls, c) :: f(c)
    ensures BeginsWith(tab, Set(cls), f)
  {
  }

  lemma {:induction false} RunBegins(tab: Table, cls: Class, lo: nat, hi: Limit, f: char -> bool)
    requires lo > 0 && forall c | In(tab, cls, c) :: f(c)
    ensures BeginsWith(tab, Rep(Set(cls), lo, hi), f)
  {
    forall u | Matches(tab, Rep(Set(cls), lo, hi), u)
      ensures u != "" && f(u[0])
    {
      RunMeans(tab, cls, lo, hi, u);
    }
  }

  // -------------------------------------------------------------------------
  // One first part
  // -------------------------------------------------------------------------

  predicate Single(ls: seq<nat>) {
    |ls| <= 1
  }

  lemma {:induction false} OneFirst(tab: Table, a: Expr, b: Expr, s: string)
    requires Single(Lengths(tab, a, s))
    ensures var firsts := Lengths(tab, a, s);
            Lengths(tab, Then(a, b), s) ==
            if firsts == [] then [] else Shift(firsts[0], Lengths(tab, b, s[firsts[0]..]))
  {
    var firsts := Lengths(tab, a, s);
    if firsts != [] {
      assert firsts == [firsts[0]] && firsts[1..] == [];
      assert ThenLengths(tab, [], b, s) == [];
    }
  }

  lemma {:induction false} ShiftKeeps(k: nat, ls: seq<nat>)
    ensures Descending(ls) ==> Descending(Shift(k, ls))
    ensures Tall(ls) ==> Tall(Shift(k, ls))
    ensures Single(ls) ==> Single(Shift(k, ls))
  {
  }

  /** At most one first part: the list for both has the shape of the list for the second. */
  lemma {:induction false} OneFirstShape(tab: Table, a: Expr, b: Expr, s: string)
    requires Single(Lengths(tab, a, s))
    ensures (forall k: nat | k <= |s| :: Descending(Lengths(tab, b, s[k..]))) ==>
            Descending(Lengths(tab, Then(a, b), s))
    ensures (forall k: nat | k <= |s| :: Tall(Lengths(tab, b, s[k..]))) ==> Tall(Lengths(tab, Then(a, b), s))
    ensures (forall k: nat | k <= |s| :: Single(Lengths(tab, b, s[k..]))) ==> Single(Lengths(tab, Then(a, b), s))
  {
    OneFirst(tab, a, b, s);
    hide Lengths;
    var firsts := Lengths(tab, a, s);
    if firsts != [] {
      ShiftKeeps(firsts[0], Lengths(tab, b, s[firsts[0]..]));
    }
  }

  lemma {:induction false} SetSingle(tab: Table, cls: Class, s: string)
    ensures Single(Lengths(tab, Set(cls), s))
  {
  }

  lemma {:induction false} ExactlySingle(tab: Table, cls: Class, n: nat, s: string)
    ensures Single(Lengths(tab, Rep(Set(cls), n, AtMost(n)), s))
  {
    ClassLengths(tab, cls, n, AtMost(n), s);
  }

  /** An optional character before something that cannot begin with it. */
  lemma {:induction false} OptionalSingle(tab: Table, cls: Class, b: Expr, f: char -> bool, s: string)
    requires BeginsWith(tab, b, f) && (forall c | In(tab, cls, c) :: !f(c))
    requires forall k: nat | k <= |s| :: Single(Lengths(tab, b, s[k..]))
    ensures Single(Lengths(tab, Then(Opt(Set(cls)), b), s))
  {
    ClassLengths(tab, cls, 0, AtMost(1), s);
    assert s[0..] == s;
    hide Lengths;
    if s != "" && In(tab, cls, s[0]) {
      CannotBegin(tab, b, f, s);
      OptionalTaken(tab, cls, b, s);
      ShiftKeeps(1, Lengths(tab, b, s[1..]));
    } else {
      OptionalSkipped(tab, cls, b, s);
      ShiftKeeps(0, Lengths(tab, b, s));
    }
  }

  lemma {:induction false} OptionalTaken(tab: Table, cls: Class, b: Expr, s: string)
    requires s != "" && In(tab, cls, s[0])
    ensures Lengths(tab, Then(Opt(Set(cls)), b), s) == Shift(1, Lengths(tab, b, s[1..])) + Shift(0, Lengths(tab, b, s))
  {
    ClassLengths(tab, cls, 0, AtMost(1), s);
    assert Down(1, 0) == [1, 0];
    assert [1, 0][1..] == [0] && [0][1..] == [];
    assert s[0..] == s;
    assert ThenLengths(tab, [0], b, s) == Shift(0, Lengths(tab, b, s)) + ThenLengths(tab, [], b, s);
  }

  lemma {:induction false} OptionalSkipped(tab: Table, cls: Class, b: Expr, s: string)
    requires s == "" || !In(tab, cls, s[0])
    ensures Lengths(tab, Then(Opt(Set(cls)), b), s) == Shift(0, Lengths(tab, b, s))
  {
    ClassLengths(tab, cls, 0, AtMost(1), s);
    assert Down(0, 0) == [0] && [0][1..] == [];
    assert s[0..] == s;
    assert ThenLengths(tab, [0], b, s) == Shift(0, Lengths(tab, b, s)) + ThenLengths(tab, [], b, s);
  }
}
