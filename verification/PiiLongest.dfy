/** The search takes the longest match there is: the greedy repetitions leave nothing of a match behind. */
module PiiLongest {
  import opened Regex
  import opened PiiPatterns
  import opened PiiShapes
  import opened PiiChains
  import opened PiiLists

  // -------------------------------------------------------------------------
  // Card numbers and addresses
  // -------------------------------------------------------------------------

  lemma {:induction false} ClassDescends(tab: Table, cls: Class, lo: nat, hi: Limit, s: string)
    ensures Descending(Lengths(tab, Rep(Set(cls), lo, hi), s))
  {
    ClassLengths(tab, cls, lo, hi, s);
    DownDescends(Capped(Run(tab, cls, s), hi), lo);
  }

  /** A run of a class before something that cannot begin inside the run. */
  lemma {:induction false} RunThenSingle(
      tab: Table, cls: Class, lo: nat, hi: Limit, b: Expr, f: char -> bool, s: string)
    requires BeginsWith(tab, b, f) && (forall c | In(tab, cls, c) :: !f(c))
    requires forall k: nat | k <= |s| :: Single(Lengths(tab, b, s[k..]))
    ensures Single(Lengths(tab, Then(Rep(Set(cls), lo, hi), b), s))
  {
    var a := Rep(Set(cls), lo, hi);
    ClassLengths(tab, cls, lo, hi, s);
    var n := Capped(Run(tab, cls, s), hi);
    hide Lengths;
    forall k: nat | k < n
      ensures Lengths(tab, b, s[k..]) == []
    {
      assert s[k..][0] == s[k];
      CannotBegin(tab, b, f, s[k..]);
    }
    DownThenSingle(tab, n, lo, b, s);
    ThenUnfold(tab, a, b, s);
  }

  lemma {:induction false} ThenUnfold(tab: Table, a: Expr, b: Expr, s: string)
    ensures Lengths(tab, Then(a, b), s) == ThenLengths(tab, Lengths(tab, a, s), b, s)
  {
  }

  lemma {:induction false} DownThenSingle(tab: Table, n: nat, lo: nat, b: Expr, s: string)
    requires n <= |s| && Single(Lengths(tab, b, s[n..])) && forall k: nat | k < n :: Lengths(tab, b, s[k..]) == []
    ensures Single(ThenLengths(tab, Down(n, lo), b, s))
  {
    hide Lengths;
    if n >= lo {
      var rest := Down(n, lo)[1..];
      assert forall k | k in rest :: k < n by { DownRest(n, lo); }
      NoneFollows(tab, rest, b, s);
      ShiftKeeps(n, Lengths(tab, b, s[n..]));
    }
  }

  lemma {:induction false} DownRest(n: nat, lo: nat)
    requires n >= lo
    ensures Down(n, lo) != [] && Down(n, lo)[0] == n && forall k | k in Down(n, lo)[1..] :: k < n
  {
  }

  lemma {:induction false} NoneFollows(tab: Table, firsts: seq<nat>, b: Expr, s: string)
    requires Within(firsts, |s|) && forall k | k in firsts :: Lengths(tab, b, s[k..]) == []
    ensures ThenLengths(tab, firsts, b, s) == []
    decreases |firsts|
  {
    hide Lengths;
    if firsts != [] {
      assert firsts[0] in firsts && forall k | k in firsts[1..] :: k in firsts;
      NoneFollows(tab, firsts[1..], b, s);
    }
  }

  lemma {:induction false} DotBegins(tab: Table)
    ensures BeginsWith(tab, Char('.'), c => c == '.')
  {
  }

  lemma {:induction false} DottedSingle(tab: Table, s: string)
    ensures Single(Lengths(tab, DOTTED, s))
  {
    DotBegins(tab);
    assert !tab.digit('.');
    RunThenSingle(tab, Digit, 1, AtMost(3), Char('.'), c => c == '.', s);
  }

  lemma {:induction false} RepSingle(tab: Table, a: Expr, n: nat, s: string)
    requires forall t: string :: Single(Lengths(tab, a, t))
    ensures Single(RepLengths(tab, a, n, AtMost(n), s))
    decreases n
  {
    hide Lengths;
    if n > 0 {
      var firsts := Lengths(tab, a, s);
      assert Single(firsts);
      if firsts != [] {
        assert firsts[1..] == [];
        assert RepEach(tab, [], a, n - 1, AtMost(n - 1), s) == [];
        if firsts[0] > 0 {
          var later := RepLengths(tab, a, n - 1, AtMost(n - 1), s[firsts[0]..]);
          RepSingle(tab, a, n - 1, s[firsts[0]..]);
          assert RepEach(tab, firsts, a, n - 1, AtMost(n - 1), s) == Shift(firsts[0], later) + [];
        }
      }
    }
  }

  lemma {:induction false} AddressDescends(tab: Table, s: string)
    ensures Descending(Lengths(tab, IP.body, s))
  {
    AddressExpr();
    hide Lengths, IP, DOTTED, OCTET;
    forall t: string
      ensures Single(Lengths(tab, DOTTED, t))
    {
      DottedSingle(tab, t);
    }
    RepSingle(tab, DOTTED, 3, s);
    RepIs(tab, DOTTED, 3, AtMost(3), s);
    forall k: nat | k <= |s|
      ensures Descending(Lengths(tab, OCTET, s[k..]))
    {
      OctetDescends(tab, s[k..]);
    }
    OneFirstShape(tab, Rep(DOTTED, 3, AtMost(3)), OCTET, s);
  }

  lemma {:induction false} RepIs(tab: Table, a: Expr, lo: nat, hi: Limit, s: string)
    ensures Lengths(tab, Rep(a, lo, hi), s) == RepLengths(tab, a, lo, hi, s)
  {
  }

  lemma {:induction false} OctetDescends(tab: Table, s: string)
    ensures Descending(Lengths(tab, OCTET, s))
  {
    ClassDescends(tab, Digit, 1, AtMost(3), s);
  }

  lemma {:induction false} CardDescends(tab: Table, s: string)
    ensures Descending(Lengths(tab, CC.body, s))
  {
    ClassDescends(tab, Range('0', '9'), 13, AtMost(19), s);
  }

  // -------------------------------------------------------------------------
  // Email addresses
  // -------------------------------------------------------------------------

  const TLD := Rep(Set(TLD_CLASS), 2, Unlimited)
  const DOT_TLD := Then(Char('.'), TLD)
  const HOST := Rep(Set(HOST_CLASS), 1, Unlimited)
  const HOST_TLD := Then(HOST, DOT_TLD)
  const AT_HOST := Then(Char('@'), HOST_TLD)
  const LOCAL := Rep(Set(LOCAL_CLASS), 1, Unlimited)

  lemma {:induction false} EmailIs()
    ensures EMAIL.body == Then(LOCAL, AT_HOST)
  {
    EmailExpr();
  }

  lemma {:induction false} DotTldDescends(tab: Table, s: string)
    ensures Descending(Lengths(tab, DOT_TLD, s))
  {
    SetSingle(tab, OneOf(['.']), s);
    forall k: nat | k <= |s|
      ensures Descending(Lengths(tab, TLD, s[k..]))
    {
      ClassDescends(tab, TLD_CLASS, 2, Unlimited, s[k..]);
    }
    OneFirstShape(tab, Char('.'), TLD, s);
  }

  /** A dot and at least two letters. */
  lemma {:induction false} DotTldMeans(tab: Table, u: string)
    requires Matches(tab, DOT_TLD, u)
    ensures |u| >= 3 && u[0] == '.' && forall i | 0 < i < |u| :: AsciiLetter(u[i])
  {
    hide Matches;
    var dot, tld := Parted(tab, Char('.'), TLD, u);
    OneCharMatch(tab, '.', dot);
    EmailParts(tab, "", "", tld);
    assert forall i | 0 < i < |u| :: u[i] == tld[i - 1];
  }

  lemma {:induction false} DownSorted(n: nat, lo: nat)
    ensures forall i, j | 0 <= i < j < |Down(n, lo)| :: Down(n, lo)[i] > Down(n, lo)[j]
  {
    if n > lo { DownSorted(n - 1, lo); }
  }

  /** The top level behind an earlier dot ends before a later one. */
  lemma {:induction false} DotsApart(tab: Table, s: string, d: nat, k: nat, x: nat, y: nat)
    requires d < k <= |s| && x in Lengths(tab, DOT_TLD, s[k..]) && y in Lengths(tab, DOT_TLD, s[d..])
    ensures k + x >= d + y
  {
    hide Lengths, Matches, DOT_TLD;
    LengthsExact(tab, DOT_TLD, s[k..], x);
    LengthsExact(tab, DOT_TLD, s[d..], y);
    DotTldMeans(tab, s[k..][..x]);
    DotTldMeans(tab, s[d..][..y]);
    assert s[k] == '.';
    assert forall i | 0 < i < y :: s[d..][..y][i] == s[d + i];
  }

  lemma {:induction false} HostInOrder(tab: Table, n: nat, s: string)
    requires n <= |s|
    ensures InOrder(tab, Down(n, 1), DOT_TLD, s)
  {
    var firsts := Down(n, 1);
    DownSorted(n, 1);
    hide Lengths, DOT_TLD;
    forall i, j, x, y | 0 <= i < j < |firsts| && x in Lengths(tab, DOT_TLD, s[firsts[i]..])
        && y in Lengths(tab, DOT_TLD, s[firsts[j]..])
      ensures firsts[i] + x >= firsts[j] + y
    {
      DotsApart(tab, s, firsts[j], firsts[i], x, y);
    }
  }

  lemma {:induction false} HostTldDescends(tab: Table, s: string)
    ensures Descending(Lengths(tab, HOST_TLD, s))
  {
    var n := Capped(Run(tab, HOST_CLASS, s), Unlimited);
    ClassLengths(tab, HOST_CLASS, 1, Unlimited, s);
    ThenUnfold(tab, HOST, DOT_TLD, s);
    hide Lengths;
    HostInOrder(tab, n, s);
    forall i | 0 <= i < |Down(n, 1)|
      ensures Descending(Lengths(tab, DOT_TLD, s[Down(n, 1)[i]..]))
    {
      DotTldDescends(tab, s[Down(n, 1)[i]..]);
    }
    ThenDescends(tab, Down(n, 1), DOT_TLD, s);
  }

  lemma {:induction false} EmailDescends(tab: Table, s: string)
    ensures Descending(Lengths(tab, EMAIL.body, s))
  {
    EmailIs();
    var n := Capped(Run(tab, LOCAL_CLASS, s), Unlimited);
    ClassLengths(tab, LOCAL_CLASS, 1, Unlimited, s);
    ThenUnfold(tab, LOCAL, AT_HOST, s);
    hide Lengths, EMAIL, HOST_TLD;
    AtBegins(tab);
    var firsts := Down(n, 1);
    DownSorted(n, 1);
    forall j | 0 < j < |firsts|
      ensures Lengths(tab, AT_HOST, s[firsts[j]..]) == []
    {
      assert firsts[j] < firsts[0];
      EmailClassMeaning(tab, s[firsts[j]]);
      CannotBegin(tab, AT_HOST, c => c == '@', s[firsts[j]..]);
    }
    assert InOrder(tab, firsts, AT_HOST, s);
    forall i | 0 <= i < |firsts|
      ensures Descending(Lengths(tab, AT_HOST, s[firsts[i]..]))
    {
      AtHostDescends(tab, s[firsts[i]..]);
    }
    ThenDescends(tab, firsts, AT_HOST, s);
  }

  lemma {:induction false} AtBegins(tab: Table)
    ensures BeginsWith(tab, AT_HOST, c => c == '@')
  {
    SetBegins(tab, OneOf(['@']), c => c == '@');
    ThenBegins(tab, Char('@'), HOST_TLD, c => c == '@');
  }

  lemma {:induction false} AtHostDescends(tab: Table, s: string)
    ensures Descending(Lengths(tab, AT_HOST, s))
  {
    SetSingle(tab, OneOf(['@']), s);
    hide Lengths, HOST_TLD;
    forall k: nat | k <= |s|
      ensures Descending(Lengths(tab, HOST_TLD, s[k..]))
    {
      HostTldDescends(tab, s[k..]);
    }
    OneFirstShape(tab, Char('@'), HOST_TLD, s);
  }

  // -------------------------------------------------------------------------
  // Keys
  // -------------------------------------------------------------------------

  const GAP := Rep(Set(Space), 0, Unlimited)
  const SECRET := Rep(Set(SECRET_CLASS), 20, Unlimited)
  const GAP_SECRET := Then(GAP, SECRET)

  lemma {:induction false} KeyIs()
    ensures API_KEY.body == Then(API_PREFIX, GAP_SECRET)
  {
    KeyExpr();
  }

  lemma {:induction false} SecretIsWord(tab: Table, c: char)
    requires SecretChar(c) && c != '-'
    ensures tab.word(c) && !tab.space(c)
  {
  }

  lemma {:induction false} SecretNotSpace(tab: Table, c: char)
    ensures In(tab, SECRET_CLASS, c) ==> SecretChar(c) && !tab.space(c)
  {
    AlnumMeaning(tab, c);
    assert In(tab, SECRET_CLASS, c) <==> In(tab, ALNUM, c) || c in "-_\U{017F}\U{212A}";
    assert c < '\U{80}' && SecretChar(c) ==> !tab.space(c);
    if SecretChar(c) && c != '-' { SecretIsWord(tab, c); }
  }

  lemma {:induction false} SecretBegins(tab: Table)
    ensures BeginsWith(tab, SECRET, c => !tab.space(c))
  {
    forall c | In(tab, SECRET_CLASS, c)
      ensures !tab.space(c)
    {
      SecretNotSpace(tab, c);
    }
    RunBegins(tab, SECRET_CLASS, 20, Unlimited, c => !tab.space(c));
  }

  /** White space is taken to its end, because no secret begins with it. */
  lemma {:induction false} GapSecretDescends(tab: Table, s: string)
    ensures Descending(Lengths(tab, GAP_SECRET, s))
  {
    SecretBegins(tab);
    var n := Run(tab, Space, s);
    ClassLengths(tab, Space, 0, Unlimited, s);
    ThenUnfold(tab, GAP, SECRET, s);
    ClassDescends(tab, SECRET_CLASS, 20, Unlimited, s[n..]);
    hide Lengths;
    forall k: nat | k < n
      ensures Lengths(tab, SECRET, s[k..]) == []
    {
      assert tab.space(s[k]);
      CannotBegin(tab, SECRET, c => !tab.space(c), s[k..]);
    }
    DownThenOne(tab, n, SECRET, s);
    ShiftKeeps(n, Lengths(tab, SECRET, s[n..]));
  }

  lemma {:induction false} DownThenOne(tab: Table, n: nat, b: Expr, s: string)
    requires n <= |s| && forall k: nat | k < n :: Lengths(tab, b, s[k..]) == []
    ensures ThenLengths(tab, Down(n, 0), b, s) == Shift(n, Lengths(tab, b, s[n..]))
  {
    hide Lengths;
    DownRest(n, 0);
    var rest := Down(n, 0)[1..];
    NoneFollows(tab, rest, b, s);
  }

  /** The first of three letters decides between the two prefixes. */
  lemma {:induction false} PrefixDescends(tab: Table, s: string)
    ensures Descending(Lengths(tab, API_PREFIX, s))
  {
    SkSingle(tab, s);
    NamedDescends(tab, s);
    PrefixesApart(tab, s);
    assert Lengths(tab, API_PREFIX, s) == Lengths(tab, API_SK, s) + Lengths(tab, API_NAMED, s);
  }

  lemma {:induction false} PrefixesApart(tab: Table, s: string)
    ensures Lengths(tab, API_SK, s) == [] || Lengths(tab, API_NAMED, s) == []
  {
    SetBegins(tab, OneOf("sS\U{017F}"), c => c in "sS\U{017F}");
    ThenBegins(tab, FOLDED_S, Then(FOLDED_K, Char('-')), c => c in "sS\U{017F}");
    SetBegins(tab, OneOf("aA"), c => c in "aA");
    ThenBegins(tab, Set(OneOf("aA")), Then(Set(OneOf("pP")), Set(OneOf("iI"))), c => c in "aA");
    ThenBegins(tab, API_WORD, NAMED_REST, c => c in "aA");
    hide Lengths;
    if s == "" || s[0] in "aA" {
      CannotBegin(tab, API_SK, c => c in "sS\U{017F}", s);
    } else {
      CannotBegin(tab, API_NAMED, c => c in "aA", s);
    }
  }

  lemma {:induction false} ThreeSingle(tab: Table, a: Class, b: Class, c: Class, s: string)
    ensures Single(Lengths(tab, Then(Set(a), Then(Set(b), Set(c))), s))
  {
    forall k: nat | k <= |s|
      ensures Single(Lengths(tab, Then(Set(b), Set(c)), s[k..]))
    {
      forall d: nat | d <= |s[k..]|
        ensures Single(Lengths(tab, Set(c), s[k..][d..]))
      {
        SetSingle(tab, c, s[k..][d..]);
      }
      SetSingle(tab, b, s[k..]);
      OneFirstShape(tab, Set(b), Set(c), s[k..]);
    }
    SetSingle(tab, a, s);
    OneFirstShape(tab, Set(a), Then(Set(b), Set(c)), s);
  }

  lemma {:induction false} SkSingle(tab: Table, s: string)
    ensures Single(Lengths(tab, API_SK, s))
  {
    ThreeSingle(tab, FOLDED_S.cls, FOLDED_K.cls, OneOf(['-']), s);
  }

  const EQUALS := Opt(Char('='))
  const DASH_EQUALS := Then(DASH, EQUALS)
  const KEY_REST := Then(KEY_WORD, DASH_EQUALS)
  const NAMED_REST := Then(DASH, KEY_REST)

  lemma {:induction false} NamedDescends(tab: Table, s: string)
    ensures Descending(Lengths(tab, API_NAMED, s))
  {
    ThreeSingle(tab, OneOf("aA"), OneOf("pP"), OneOf("iI"), s);
    hide Lengths;
    forall k: nat | k <= |s|
      ensures Descending(Lengths(tab, NAMED_REST, s[k..]))
    {
      NamedRestDescends(tab, s[k..]);
    }
    OneFirstShape(tab, API_WORD, NAMED_REST, s);
  }

  lemma {:induction false} NamedRestDescends(tab: Table, s: string)
    ensures Descending(Lengths(tab, NAMED_REST, s))
  {
    SetBegins(tab, FOLDED_K.cls, c => c in "kK\U{212A}");
    ThenBegins(tab, FOLDED_K, Then(Set(OneOf("eE")), Set(OneOf("yY"))), c => c in "kK\U{212A}");
    ThenBegins(tab, KEY_WORD, DASH_EQUALS, c => c in "kK\U{212A}");
    hide Lengths;
    if s != "" && In(tab, OneOf("_-"), s[0]) {
      CannotBegin(tab, KEY_REST, c => c in "kK\U{212A}", s);
      OptionalTaken(tab, OneOf("_-"), KEY_REST, s);
      KeyRestDescends(tab, s[1..]);
      ShiftKeeps(1, Lengths(tab, KEY_REST, s[1..]));
    } else {
      OptionalSkipped(tab, OneOf("_-"), KEY_REST, s);
      KeyRestDescends(tab, s);
      ShiftKeeps(0, Lengths(tab, KEY_REST, s));
    }
  }

  lemma {:induction false} KeyRestDescends(tab: Table, s: string)
    ensures Descending(Lengths(tab, KEY_REST, s))
  {
    ThreeSingle(tab, FOLDED_K.cls, OneOf("eE"), OneOf("yY"), s);
    hide Lengths;
    forall k: nat | k <= |s|
      ensures Descending(Lengths(tab, DASH_EQUALS, s[k..]))
    {
      DashEqualsDescends(tab, s[k..]);
    }
    OneFirstShape(tab, KEY_WORD, DASH_EQUALS, s);
  }

  lemma {:induction false} DashEqualsDescends(tab: Table, s: string)
    ensures Descending(Lengths(tab, DASH_EQUALS, s))
  {
    ClassDescends(tab, OneOf(['=']), 0, AtMost(1), s);
    ClassLengths(tab, OneOf(['=']), 0, AtMost(1), s);
    if s != "" && In(tab, OneOf("_-"), s[0]) {
      ClassDescends(tab, OneOf(['=']), 0, AtMost(1), s[1..]);
      assert Lengths(tab, EQUALS, s) == [0];
      hide Lengths;
      OptionalTaken(tab, OneOf("_-"), EQUALS, s);
      ShiftKeeps(1, Lengths(tab, EQUALS, s[1..]));
    } else {
      hide Lengths;
      OptionalSkipped(tab, OneOf("_-"), EQUALS, s);
      ShiftKeeps(0, Lengths(tab, EQUALS, s));
    }
  }

  // -------------------------------------------------------------------------
  // A prefix cut short
  // -------------------------------------------------------------------------

  lemma {:induction false} NamedText(u: string, a: string, b: string, c: string, d: string, e: string)
    requires IsNamed(u, a, b, c, d, e)
    ensures u == a + (b + (c + (d + e))) && |u| >= 6 && u[0] in "aA"
    ensures if |b| == 0 then u[3] in "kK\U{212A}" else u[3] in "_-"
    ensures |b| <= 1 && |d| <= 1 && |e| <= 1
  {
    FiveConcat(a, b, c, d, e);
    assert u[0] == a[0];
    if |b| == 0 { assert u[3] == c[0]; } else { assert u[3] == b[0]; }
  }

  lemma {:induction false} FiveConcat(a: string, b: string, c: string, d: string, e: string)
    ensures Concat([a, b, c, d, e]) == a + (b + (c + (d + e)))
  {
    ConcatOne(e);
    ConcatTwo(d, [e]);
    ConcatTwo(c, [d, e]);
    ConcatTwo(b, [c, d, e]);
    ConcatTwo(a, [b, c, d, e]);
  }

  lemma {:induction false} ConcatTwo(a: string, parts: seq<string>)
    ensures Concat([a] + parts) == a + Concat(parts)
  {
    assert ([a] + parts)[1..] == parts;
  }

  lemma {:induction false} SkNoLonger(u: string, v: string)
    requires IsSk(u) && u < v
    ensures !IsKeyPrefix(v)
  {
    assert v[0] == u[0];
    forall a, b, c, d, e | IsNamed(v, a, b, c, d, e)
      ensures v[0] in "aA"
    {
      NamedText(v, a, b, c, d, e);
    }
  }

  /** What may follow the word `key` in a prefix. */
  predicate IsTail(t: string) {
    t == "" || t == "-" || t == "_" || t == "=" || t == "-=" || t == "_="
  }

  /** A named prefix is six letters, an optional dash after the first three, and a tail. */
  lemma {:induction false} TailOf(u: string)
    requires IsKeyPrefix(u) && !IsSk(u)
    ensures |u| >= 6 && u[0] in "aA"
    ensures var n := if u[3] in "_-" then 7 else 6; n <= |u| && IsTail(u[n..])
  {
    var a, b, c, d, e :| IsNamed(u, a, b, c, d, e);
    NamedText(u, a, b, c, d, e);
    assert u[6 + |b|..] == d + e;
    assert "" + e == e && d + "" == d && "-" + "=" == "-=" && "_" + "=" == "_=";
  }

  lemma {:induction false} LongerTail(s: string, t: string)
    requires IsTail(s) && IsTail(t) && s < t
    ensures t[|s|..] == "=" || (t[|s|] in "_-" && (|t| == |s| + 1 || t[|s| + 1..] == "="))
  {
    assert IsTail(t[|s|..]);
  }

  /** Of two prefixes at one place the longer one has a dash or an equals sign more, or both. */
  lemma {:induction false} ShorterPrefix(u: string, v: string)
    requires IsKeyPrefix(u) && IsKeyPrefix(v) && u < v
    ensures v[|u|..] == "=" || (v[|u|] in "_-" && (|v| == |u| + 1 || v[|u| + 1..] == "="))
  {
    hide IsKeyPrefix;
    assert !IsSk(u) by {
      if IsSk(u) { SkNoLonger(u, v); }
    }
    TailOf(u);
    assert v[0] == u[0] && v[3] == u[3];
    TailOf(v);
    var n := if u[3] in "_-" then 7 else 6;
    var x, y := u[n..], v[n..];
    assert y[..|x|] == x by { assert v[..|u|] == u; }
    LongerTail(x, y);
    assert v[|u|..] == y[|x|..];
  }

  /** A shorter prefix can be followed only if a dash alone sets it apart, and then the dash begins the secret. */
  lemma {:induction false} DashBegins(tab: Table, t: string, w: nat, y: nat)
    requires 0 < w <= |t| && y <= |t| && Matches(tab, GAP_SECRET, t[..y])
    requires t[..w] == "=" || (t[0] in "_-" && (w == 1 || t[1..w] == "="))
    ensures w == 1 && y >= 20 && forall i | 0 <= i < y :: SecretChar(t[i])
  {
    hide Matches;
    assert w > 1 ==> t[1..w][0] == t[1] == '=';
    assert t[0] == t[..w][0];
    var gap, secret := GapSecretParts(tab, t[..y]);
    assert (gap + secret)[0] == t[0];
    assert !tab.space(t[0]);
    assert gap == "" && secret == t[..y];
    assert forall i | 0 <= i < y :: t[i] == secret[i];
  }

  /** The list for white space and a secret reaches at least as far as any run of key characters. */
  lemma {:induction false} ReachesRun(tab: Table, s: string, n: nat)
    requires Lengths(tab, GAP_SECRET, s) != []
    requires n <= |s| && forall i | 0 <= i < n :: SecretChar(s[i])
    ensures Lengths(tab, GAP_SECRET, s)[0] >= 20 && Lengths(tab, GAP_SECRET, s)[0] >= n
  {
    hide Matches, SecretChar;
    var most := Lengths(tab, GAP_SECRET, s)[0];
    LengthsExact(tab, GAP_SECRET, s, most);
    var gap, secret := GapSecretParts(tab, s[..most]);
    if n >= 20 {
      SecretAlone(tab, s[..n]);
      LengthsExact(tab, GAP_SECRET, s, n);
      GapSecretDescends(tab, s);
      hide Lengths;
      TallEntry(Lengths(tab, GAP_SECRET, s), n);
    }
  }

  /** What a shorter prefix leaves for the secret, the longer one leaves as well, up to a dash. */
  lemma {:induction false} LongerPrefixFurther(tab: Table, s: string, k: nat, d: nat, y: nat)
    requires d < k <= |s| && IsKeyPrefix(s[..k]) && IsKeyPrefix(s[..d])
    requires Lengths(tab, GAP_SECRET, s[k..]) != [] && y in Lengths(tab, GAP_SECRET, s[d..])
    ensures k + Lengths(tab, GAP_SECRET, s[k..])[0] >= d + y
  {
    hide Lengths, Matches, GAP_SECRET, IsKeyPrefix, SecretChar;
    LengthsExact(tab, GAP_SECRET, s[d..], y);
    CutShort(s, k, d);
    DashBegins(tab, s[d..], k - d, y);
    assert forall i | 0 <= i < y - 1 :: s[k..][i] == s[d..][i + 1];
    ReachesRun(tab, s[k..], y - 1);
  }

  lemma {:induction false} CutShort(s: string, k: nat, d: nat)
    requires d < k <= |s| && IsKeyPrefix(s[..k]) && IsKeyPrefix(s[..d])
    ensures var t, w := s[d..], k - d; t[..w] == "=" || (t[0] in "_-" && (w == 1 || t[1..w] == "="))
  {
    hide IsKeyPrefix;
    var u, v := s[..d], s[..k];
    ShorterPrefix(u, v);
    assert v[d..] == s[d..][..k - d] && v[d] == s[d..][0];
    if k > d + 1 { assert v[d + 1..] == s[d..][1..k - d]; }
  }

  lemma {:induction false} TallEntry(ls: seq<nat>, l: nat)
    requires Descending(ls) && l in ls
    ensures l <= ls[0]
  {
  }

  lemma {:induction false} GapSecretParts(tab: Table, u: string) returns (gap: string, secret: string)
    requires Matches(tab, GAP_SECRET, u)
    ensures u == gap + secret && (forall i | 0 <= i < |gap| :: tab.space(gap[i]))
    ensures |secret| >= 20 && forall i | 0 <= i < |secret| :: SecretChar(secret[i])
  {
    hide Matches;
    gap, secret := Parted(tab, GAP, SECRET, u);
    SecretMeans(tab, gap, secret);
  }

  lemma {:induction false} SecretAlone(tab: Table, secret: string)
    requires |secret| >= 20 && forall i | 0 <= i < |secret| :: SecretChar(secret[i])
    ensures Matches(tab, GAP_SECRET, secret)
  {
    hide Matches;
    SecretMeans(tab, "", secret);
    Joined(tab, GAP, SECRET, "", secret);
    assert "" + secret == secret;
  }

  lemma {:induction false} KeyIsTall(tab: Table, s: string)
    ensures Tall(Lengths(tab, API_KEY.body, s))
  {
    KeyIs();
    var firsts := Lengths(tab, API_PREFIX, s);
    PrefixDescends(tab, s);
    ThenUnfold(tab, API_PREFIX, GAP_SECRET, s);
    forall k | k in firsts
      ensures k <= |s| && IsKeyPrefix(s[..k])
    {
      LengthsExact(tab, API_PREFIX, s, k);
      PrefixMeans(tab, s[..k]);
    }
    hide Lengths, API_KEY, API_PREFIX, GAP_SECRET, IsKeyPrefix;
    forall i | 0 <= i < |firsts|
      ensures Descending(Lengths(tab, GAP_SECRET, s[firsts[i]..]))
    {
      GapSecretDescends(tab, s[firsts[i]..]);
    }
    forall i, j, y | 0 <= i < j < |firsts| && Lengths(tab, GAP_SECRET, s[firsts[i]..]) != []
        && y in Lengths(tab, GAP_SECRET, s[firsts[j]..])
      ensures firsts[i] + Lengths(tab, GAP_SECRET, s[firsts[i]..])[0] >= firsts[j] + y
    {
      assert firsts[i] in firsts && firsts[j] in firsts;
      if firsts[i] == firsts[j] {
        TallEntry(Lengths(tab, GAP_SECRET, s[firsts[j]..]), y);
      } else {
        LongerPrefixFurther(tab, s, firsts[i], firsts[j], y);
      }
    }
    ThenIsTall(tab, firsts, GAP_SECRET, s);
  }

  // -------------------------------------------------------------------------
  // Phone numbers
  // -------------------------------------------------------------------------

  const LINE := Digits(4)
  const GAP_LINE := Then(SEPARATOR, LINE)
  const EXCHANGE := Then(Digits(3), GAP_LINE)
  const GAP_EXCHANGE := Then(SEPARATOR, EXCHANGE)
  const CLOSE := Then(Opt(Char(')')), GAP_EXCHANGE)
  const AREA := Then(Digits(3), CLOSE)
  const OPEN := Then(Opt(Char('(')), AREA)
  const NATIONAL := Then(SEPARATOR, OPEN)
  const ABROAD := Then(COUNTRY, NATIONAL)

  lemma {:induction false} PhoneIs()
    ensures PHONE.body == Then(Opt(Char('+')), ABROAD)
  {
    PhoneExpr();
  }

  ghost function DigitCount(tab: Table, u: string): nat {
    if u == "" then 0 else DigitCount(tab, u[1..]) + if tab.digit(u[0]) then 1 else 0
  }

  lemma {:induction false} CountJoined(tab: Table, u: string, v: string)
    ensures DigitCount(tab, u + v) == DigitCount(tab, u) + DigitCount(tab, v)
    decreases |u|
  {
    if u == "" {
      assert u + v == v;
    } else {
      assert (u + v)[0] == u[0] && (u + v)[1..] == u[1..] + v;
      CountJoined(tab, u[1..], v);
    }
  }

  lemma {:induction false} CountAll(tab: Table, u: string)
    requires forall i | 0 <= i < |u| :: tab.digit(u[i])
    ensures DigitCount(tab, u) == |u|
    decreases |u|
  {
    if u != "" { CountAll(tab, u[1..]); }
  }

  /** Every accepted string has n digits. */
  ghost predicate Counts(tab: Table, r: Expr, n: nat) {
    forall u | Matches(tab, r, u) :: DigitCount(tab, u) == n
  }

  lemma {:induction false} CountsThen(tab: Table, a: Expr, b: Expr, n: nat, k: nat)
    requires Counts(tab, a, n) && Counts(tab, b, k)
    ensures Counts(tab, Then(a, b), n + k)
  {
    hide Matches, DigitCount;
    forall w | Matches(tab, Then(a, b), w)
      ensures DigitCount(tab, w) == n + k
    {
      var u, v := Parted(tab, a, b, w);
      CountJoined(tab, u, v);
    }
  }

  lemma {:induction false} CountsDigits(tab: Table, n: nat)
    ensures Counts(tab, Digits(n), n)
  {
    hide Matches, DigitCount;
    forall u | Matches(tab, Digits(n), u)
      ensures DigitCount(tab, u) == n
    {
      DigitsMean(tab, n, u);
      CountAll(tab, u);
    }
  }

  lemma {:induction false} CountsOptional(tab: Table, cls: Class)
    requires forall c | In(tab, cls, c) :: !tab.digit(c)
    ensures Counts(tab, Opt(Set(cls)), 0)
  {
    hide Matches;
    forall u | Matches(tab, Opt(Set(cls)), u)
      ensures DigitCount(tab, u) == 0
    {
      OptMeans(tab, cls, u);
    }
  }

  lemma {:induction false} GapClass(tab: Table, c: char)
    ensures In(tab, Union(Space, OneOf("-")), c) <==> tab.space(c) || c == '-'
    ensures tab.digit(c) ==> !In(tab, Union(Space, OneOf("-")), c) && c != '(' && c != ')' && c != '+'
  {
    assert In(tab, Union(Space, OneOf("-")), c) <==> In(tab, Space, c) || In(tab, OneOf("-"), c);
  }

  lemma {:induction false} NationalCounts(tab: Table)
    ensures Counts(tab, NATIONAL, 10)
  {
    forall c
      ensures tab.digit(c) ==> !In(tab, Union(Space, OneOf("-")), c) && c != '(' && c != ')' && c != '+'
    {
      GapClass(tab, c);
    }
    CountsOptional(tab, Union(Space, OneOf("-")));
    CountsOptional(tab, OneOf(['(']));
    CountsOptional(tab, OneOf([')']));
    CountsDigits(tab, 3);
    CountsDigits(tab, 4);
    hide Counts;
    CountsThen(tab, SEPARATOR, LINE, 0, 4);
    CountsThen(tab, Digits(3), GAP_LINE, 3, 4);
    CountsThen(tab, SEPARATOR, EXCHANGE, 0, 7);
    CountsThen(tab, Opt(Char(')')), GAP_EXCHANGE, 0, 7);
    CountsThen(tab, Digits(3), CLOSE, 3, 7);
    CountsThen(tab, Opt(Char('(')), AREA, 0, 10);
    CountsThen(tab, SEPARATOR, OPEN, 0, 10);
  }

  // What a part may begin with.

  predicate DigitFirst(tab: Table, c: char) {
    tab.digit(c)
  }

  predicate GapOrDigit(tab: Table, c: char) {
    tab.digit(c) || tab.space(c) || c == '-'
  }

  predicate OpenOrDigit(tab: Table, c: char) {
    tab.digit(c) || c == '('
  }

  lemma {:induction false} DigitsBegin(tab: Table, n: nat)
    requires n > 0
    ensures BeginsWith(tab, Digits(n), c => DigitFirst(tab, c))
  {
    RunBegins(tab, Digit, n, AtMost(n), c => DigitFirst(tab, c));
  }

  /** With an optional character in front. */
  lemma {:induction false} OptionalBegins(tab: Table, cls: Class, b: Expr, f: char -> bool, g: char -> bool)
    requires BeginsWith(tab, b, f) && (forall c | f(c) || In(tab, cls, c) :: g(c))
    ensures BeginsWith(tab, Then(Opt(Set(cls)), b), g)
  {
    hide Matches;
    forall w | Matches(tab, Then(Opt(Set(cls)), b), w)
      ensures w != "" && g(w[0])
    {
      var u, v := Parted(tab, Opt(Set(cls)), b, w);
      OptMeans(tab, cls, u);
      if u == "" { assert w == v; } else { assert w[0] == u[0]; }
    }
  }

  // Each part has at most one length at any place.

  ghost predicate AlwaysSingle(tab: Table, r: Expr) {
    forall s: string :: Single(Lengths(tab, r, s))
  }

  lemma {:induction false} DigitsThenSingle(tab: Table, n: nat, b: Expr)
    requires AlwaysSingle(tab, b)
    ensures AlwaysSingle(tab, Then(Digits(n), b))
  {
    hide Lengths;
    forall s: string
      ensures Single(Lengths(tab, Then(Digits(n), b), s))
    {
      ExactlySingle(tab, Digit, n, s);
      OneFirstShape(tab, Digits(n), b, s);
    }
  }

  lemma {:induction false} OptionalThenSingle(tab: Table, cls: Class, b: Expr, f: char -> bool)
    requires AlwaysSingle(tab, b) && BeginsWith(tab, b, f) && forall c | In(tab, cls, c) :: !f(c)
    ensures AlwaysSingle(tab, Then(Opt(Set(cls)), b))
  {
    hide Lengths, BeginsWith;
    forall s: string
      ensures Single(Lengths(tab, Then(Opt(Set(cls)), b), s))
    {
      OptionalSingle(tab, cls, b, f, s);
    }
  }

  lemma {:induction false} GapFacts(tab: Table)
    ensures forall c | In(tab, Union(Space, OneOf("-")), c) ::
              !DigitFirst(tab, c) && !OpenOrDigit(tab, c) && GapOrDigit(tab, c)
    ensures !GapOrDigit(tab, ')') && !DigitFirst(tab, '(') && !tab.digit('+')
  {
    forall c | In(tab, Union(Space, OneOf("-")), c)
      ensures !DigitFirst(tab, c) && !OpenOrDigit(tab, c) && GapOrDigit(tab, c)
    {
      GapClass(tab, c);
    }
  }

  lemma {:induction false} ExchangeSingle(tab: Table)
    ensures AlwaysSingle(tab, GAP_EXCHANGE) && BeginsWith(tab, GAP_EXCHANGE, c => GapOrDigit(tab, c))
  {
    forall s: string
      ensures Single(Lengths(tab, LINE, s))
    {
      ExactlySingle(tab, Digit, 4, s);
    }
    DigitsBegin(tab, 4);
    DigitsBegin(tab, 3);
    ThenBegins(tab, Digits(3), GAP_LINE, c => DigitFirst(tab, c));
    GapFacts(tab);
    hide Lengths, BeginsWith;
    OptionalThenSingle(tab, Union(Space, OneOf("-")), LINE, c => DigitFirst(tab, c));
    DigitsThenSingle(tab, 3, GAP_LINE);
    OptionalThenSingle(tab, Union(Space, OneOf("-")), EXCHANGE, c => DigitFirst(tab, c));
    OptionalBegins(tab, Union(Space, OneOf("-")), EXCHANGE, c => DigitFirst(tab, c), c => GapOrDigit(tab, c));
  }

  lemma {:induction false} NationalSingle(tab: Table)
    ensures AlwaysSingle(tab, NATIONAL)
  {
    ExchangeSingle(tab);
    DigitsBegin(tab, 3);
    ThenBegins(tab, Digits(3), CLOSE, c => DigitFirst(tab, c));
    GapFacts(tab);
    hide Lengths, BeginsWith, GAP_EXCHANGE;
    OptionalThenSingle(tab, OneOf([')']), GAP_EXCHANGE, c => GapOrDigit(tab, c));
    DigitsThenSingle(tab, 3, CLOSE);
    OptionalThenSingle(tab, OneOf(['(']), AREA, c => DigitFirst(tab, c));
    OptionalBegins(tab, OneOf(['(']), AREA, c => DigitFirst(tab, c), c => OpenOrDigit(tab, c));
    OptionalThenSingle(tab, Union(Space, OneOf("-")), OPEN, c => OpenOrDigit(tab, c));
  }

  lemma {:induction false} MoreDigits(tab: Table, s: string, d: nat, k: nat, e: nat, f: nat)
    requires d < k <= e <= f <= |s| && forall i | d <= i < k :: tab.digit(s[i])
    ensures DigitCount(tab, s[d..f]) > DigitCount(tab, s[k..e])
  {
    CountAll(tab, s[d..k]);
    CountJoined(tab, s[d..k], s[k..e]);
    CountJoined(tab, s[d..k] + s[k..e], s[e..f]);
    assert s[d..f] == s[d..k] + s[k..e] + s[e..f];
  }

  lemma {:induction false} TenDigits(tab: Table, t: string, x: nat)
    requires x in Lengths(tab, NATIONAL, t)
    ensures x <= |t| && DigitCount(tab, t[..x]) == 10
  {
    hide Lengths, Matches, NATIONAL, DigitCount;
    NationalCounts(tab);
    LengthsExact(tab, NATIONAL, t, x);
  }

  /** The tenth digit after an earlier country code comes before the tenth after a later one. */
  lemma {:induction false} TenthDigit(tab: Table, s: string, d: nat, k: nat, x: nat, y: nat)
    requires d < k <= |s| && forall i | d <= i < k :: tab.digit(s[i])
    requires x in Lengths(tab, NATIONAL, s[k..]) && y in Lengths(tab, NATIONAL, s[d..])
    ensures k + x >= d + y
  {
    hide Lengths, NATIONAL, DigitCount;
    TenDigits(tab, s[k..], x);
    TenDigits(tab, s[d..], y);
    assert s[k..k + x] == s[k..][..x] && s[d..d + y] == s[d..][..y];
    if d + y > k + x {
      MoreDigits(tab, s, d, k, k + x, d + y);
      assert false;
    }
  }

  lemma {:induction false} CountryInOrder(tab: Table, n: nat, s: string)
    requires n <= |s| && forall i | 0 <= i < n :: AsciiDigit(s[i])
    ensures InOrder(tab, Down(n, 1), NATIONAL, s)
  {
    var firsts := Down(n, 1);
    DownSorted(n, 1);
    hide Lengths, NATIONAL;
    forall i, j, x, y | 0 <= i < j < |firsts| && x in Lengths(tab, NATIONAL, s[firsts[i]..])
        && y in Lengths(tab, NATIONAL, s[firsts[j]..])
      ensures firsts[i] + x >= firsts[j] + y
    {
      TenthDigit(tab, s, firsts[j], firsts[i], x, y);
    }
  }

  lemma {:induction false} AbroadDescends(tab: Table, s: string)
    ensures Descending(Lengths(tab, ABROAD, s))
  {
    hide Lengths, NATIONAL, Down;
    var n := Capped(Run(tab, Range('0', '9'), s), AtMost(3));
    assert forall i | 0 <= i < n :: In(tab, Range('0', '9'), s[i]);
    ClassLengths(tab, Range('0', '9'), 1, AtMost(3), s);
    ThenUnfold(tab, COUNTRY, NATIONAL, s);
    NationalSingle(tab);
    CountryInOrder(tab, n, s);
    ThenDescends(tab, Down(n, 1), NATIONAL, s);
  }

  lemma {:induction false} PhoneDescends(tab: Table, s: string)
    ensures Descending(Lengths(tab, PHONE.body, s))
  {
    PhoneIs();
    RunBegins(tab, Range('0', '9'), 1, AtMost(3), c => DigitFirst(tab, c));
    ThenBegins(tab, COUNTRY, NATIONAL, c => DigitFirst(tab, c));
    GapFacts(tab);
    hide Lengths, PHONE, NATIONAL, BeginsWith;
    if s != "" && In(tab, OneOf(['+']), s[0]) {
      CannotBegin(tab, ABROAD, c => DigitFirst(tab, c), s);
      OptionalTaken(tab, OneOf(['+']), ABROAD, s);
      AbroadDescends(tab, s[1..]);
      ShiftKeeps(1, Lengths(tab, ABROAD, s[1..]));
    } else {
      OptionalSkipped(tab, OneOf(['+']), ABROAD, s);
      AbroadDescends(tab, s);
      ShiftKeeps(0, Lengths(tab, ABROAD, s));
    }
  }

  // -------------------------------------------------------------------------
  // All five patterns
  // -------------------------------------------------------------------------

  /**
    Whatever a pattern accepts at a place of a text, anchors included, the search answers a length at least as
    long. With `MatchLengthExact` this says what the search computes without saying how: the longest match.
  */
  lemma {:induction false} LongestMatch(tab: Table, p: Pattern, left: bool, s: string, l: nat)
    requires p in [API_KEY, EMAIL, PHONE, CC, IP] && MatchesAt(tab, p, left, s, l)
    ensures l <= MatchLength(tab, p, left, s)
  {
    LengthsExact(tab, p.body, s, l);
    hide Lengths, Matches;
    if p == API_KEY {
      KeyIsTall(tab, s);
      PickTall(tab, p, left, s, Lengths(tab, p.body, s), l);
    } else {
      if p == EMAIL {
        EmailDescends(tab, s);
      } else if p == PHONE {
        PhoneDescends(tab, s);
      } else if p == CC {
        CardDescends(tab, s);
      } else {
        AddressDescends(tab, s);
      }
      PickDescending(tab, p, left, s, Lengths(tab, p.body, s), l);
    }
  }
}
