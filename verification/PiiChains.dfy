/** Strings accepted part by part: phone numbers and keys. */
module PiiChains {
  import opened Regex
  import opened PiiPatterns
  import opened Tokeniser
  import opened PiiFixedPoint
  import opened PiiShapes

  // -------------------------------------------------------------------------
  // Concatenations
  // -------------------------------------------------------------------------

  function Chain(rs: seq<Expr>): Expr
    requires rs != []
  {
    if |rs| == 1 then rs[0] else Then(rs[0], Chain(rs[1..]))
  }

  function Concat(parts: seq<string>): string {
    if parts == [] then "" else parts[0] + Concat(parts[1..])
  }

  ghost predicate PartByPart(tab: Table, rs: seq<Expr>, parts: seq<string>) {
    |parts| == |rs| && forall i | 0 <= i < |rs| :: Matches(tab, rs[i], parts[i])
  }

  lemma {:induction false} ConcatOne(p: string)
    ensures Concat([p]) == p
  {
    assert [p][1..] == [];
    assert p + "" == p;
  }

  lemma {:induction false} ChainAccepts(tab: Table, rs: seq<Expr>, parts: seq<string>)
    requires rs != [] && PartByPart(tab, rs, parts)
    ensures Matches(tab, Chain(rs), Concat(parts))
  {
    hide Matches;
    if |rs| == 1 {
      assert parts == [parts[0]];
      ConcatOne(parts[0]);
    } else {
      ChainAccepts(tab, rs[1..], parts[1..]);
      Joined(tab, rs[0], Chain(rs[1..]), parts[0], Concat(parts[1..]));
    }
  }

  lemma {:induction false} ChainParts(tab: Table, rs: seq<Expr>, u: string) returns (parts: seq<string>)
    requires rs != [] && Matches(tab, Chain(rs), u)
    ensures PartByPart(tab, rs, parts) && Concat(parts) == u
  {
    hide Matches;
    if |rs| == 1 {
      parts := [u];
      ConcatOne(u);
    } else {
      var v, w := Parted(tab, rs[0], Chain(rs[1..]), u);
      var rest := ChainParts(tab, rs[1..], w);
      parts := [v] + rest;
      assert parts[1..] == rest;
    }
  }

  /** An optional character. */
  lemma {:induction false} OptMeans(tab: Table, cls: Class, u: string)
    ensures Matches(tab, Opt(Set(cls)), u) <==> |u| <= 1 && AllIn(tab, cls, u)
  {
    hide MatchesRep;
    RepeatedClass(tab, cls, 0, AtMost(1), u);
  }

  lemma {:induction false} RunMeans(tab: Table, cls: Class, lo: nat, hi: Limit, u: string)
    ensures Matches(tab, Rep(Set(cls), lo, hi), u) <==>
            lo <= |u| && (hi.AtMost? ==> |u| <= hi.n) && AllIn(tab, cls, u)
  {
    hide MatchesRep;
    RepeatedClass(tab, cls, lo, hi, u);
  }

  ghost predicate OptionalChar(c: char, u: string) {
    u == "" || u == [c]
  }

  lemma {:induction false} OptCharMeans(tab: Table, c: char, u: string)
    ensures Matches(tab, Opt(Char(c)), u) <==> OptionalChar(c, u)
  {
    OptMeans(tab, OneOf([c]), u);
    hide Matches;
    if |u| == 1 { assert u == [u[0]]; }
  }

  // -------------------------------------------------------------------------
  // Phone numbers
  // -------------------------------------------------------------------------

  const COUNTRY := Rep(Set(Range('0', '9')), 1, AtMost(3))

  function Digits(n: nat): Expr {
    Rep(Set(Digit), n, AtMost(n))
  }

  const PHONE_PARTS: seq<Expr> :=
    [Opt(Char('+')), COUNTRY, SEPARATOR, Opt(Char('(')), Digits(3), Opt(Char(')')), SEPARATOR, Digits(3), SEPARATOR,
        Digits(4)]

  lemma {:induction false} PhoneChain()
    ensures PHONE.body == Chain(PHONE_PARTS)
  {
    var ps := PHONE_PARTS;
    hide Digits, Opt, Char;
    forall i | 0 <= i < 9
      ensures Chain(ps[i..]) == Then(ps[i], Chain(ps[i + 1..]))
    {
      assert ps[i..][1..] == ps[i + 1..];
    }
    assert Chain(ps[9..]) == ps[9];
    assert Chain(ps[8..]) == Then(SEPARATOR, Digits(4));
    var line := Then(Digits(3), Chain(ps[8..]));
    assert Chain(ps[7..]) == line;
    assert Chain(ps[6..]) == Then(SEPARATOR, line);
    assert Chain(ps[5..]) == Then(Opt(Char(')')), Then(SEPARATOR, line));
    var area := Then(Digits(3), Chain(ps[5..]));
    assert Chain(ps[4..]) == area;
    assert Chain(ps[3..]) == Then(Opt(Char('(')), area);
    var rest := Then(SEPARATOR, Chain(ps[3..]));
    assert Chain(ps[2..]) == rest;
    assert Chain(ps[1..]) == Then(COUNTRY, rest);
    assert Chain(ps[0..]) == Then(Opt(Char('+')), Chain(ps[1..]));
    assert ps[0..] == ps;
    PhoneExpr();
  }

  lemma {:induction false} PhoneExpr()
    ensures PHONE.body ==
            Then(Opt(Char('+')), Then(COUNTRY, Then(SEPARATOR, Then(Opt(Char('(')), Then(Digits(3),
            Then(Opt(Char(')')), Then(SEPARATOR, Then(Digits(3), Then(SEPARATOR, Digits(4))))))))))
  {
  }

  datatype Phone = Phone(
    plus: string, country: string, gap1: string, open: string, area: string, close: string, gap2: string,
    exchange: string, gap3: string, line: string)
  {
    function Parts(): seq<string> {
      [plus, country, gap1, open, area, close, gap2, exchange, gap3, line]
    }
  }

  ghost predicate IsGap(tab: Table, u: string) {
    u == "" || (|u| == 1 && (tab.space(u[0]) || u[0] == '-'))
  }

  ghost predicate IsDigits(tab: Table, n: nat, u: string) {
    |u| == n && forall i | 0 <= i < n :: tab.digit(u[i])
  }

  /** A country code, an optionally bracketed area code and the rest, with optional plus sign and gaps. */
  ghost predicate IsPhone(tab: Table, u: string, p: Phone) {
    && u == Concat(p.Parts())
    && OptionalChar('+', p.plus)
    && 1 <= |p.country| <= 3 && (forall i | 0 <= i < |p.country| :: AsciiDigit(p.country[i]))
    && IsGap(tab, p.gap1) && OptionalChar('(', p.open) && IsDigits(tab, 3, p.area) && OptionalChar(')', p.close)
    && IsGap(tab, p.gap2) && IsDigits(tab, 3, p.exchange) && IsGap(tab, p.gap3) && IsDigits(tab, 4, p.line)
  }

  lemma {:induction false} GapMeans(tab: Table, u: string)
    ensures Matches(tab, SEPARATOR, u) <==> IsGap(tab, u)
  {
    var cls := Union(Space, OneOf("-"));
    OptMeans(tab, cls, u);
    hide Matches;
    forall c
      ensures In(tab, cls, c) <==> tab.space(c) || c == '-'
    {
      assert In(tab, cls, c) <==> In(tab, Space, c) || In(tab, OneOf("-"), c);
    }
  }

  lemma {:induction false} DigitsMean(tab: Table, n: nat, u: string)
    ensures Matches(tab, Digits(n), u) <==> IsDigits(tab, n, u)
  {
    RunMeans(tab, Digit, n, AtMost(n), u);
    hide Matches;
  }

  lemma {:induction false} CountryMeans(tab: Table, u: string)
    ensures Matches(tab, COUNTRY, u) <==> 1 <= |u| <= 3 && forall i | 0 <= i < |u| :: AsciiDigit(u[i])
  {
    RunMeans(tab, Range('0', '9'), 1, AtMost(3), u);
    hide Matches;
  }

  lemma {:induction false} PhonePartsMean(tab: Table, p: Phone)
    ensures PartByPart(tab, PHONE_PARTS, p.Parts()) <==> IsPhone(tab, Concat(p.Parts()), p)
  {
    TenMatches(tab, p);
    OptCharMeans(tab, '+', p.plus);
    CountryMeans(tab, p.country);
    GapMeans(tab, p.gap1);
    OptCharMeans(tab, '(', p.open);
    DigitsMean(tab, 3, p.area);
    OptCharMeans(tab, ')', p.close);
    GapMeans(tab, p.gap2);
    DigitsMean(tab, 3, p.exchange);
    GapMeans(tab, p.gap3);
    DigitsMean(tab, 4, p.line);
    hide Matches, IsGap, IsDigits, OptionalChar, Concat, AsciiDigit, Opt, Char, Digits, PartByPart, PHONE_PARTS;
  }

  lemma {:induction false} TenMatches(tab: Table, p: Phone)
    ensures PartByPart(tab, PHONE_PARTS, p.Parts()) <==>
            && Matches(tab, Opt(Char('+')), p.plus) && Matches(tab, COUNTRY, p.country)
            && Matches(tab, SEPARATOR, p.gap1) && Matches(tab, Opt(Char('(')), p.open)
            && Matches(tab, Digits(3), p.area) && Matches(tab, Opt(Char(')')), p.close)
            && Matches(tab, SEPARATOR, p.gap2) && Matches(tab, Digits(3), p.exchange)
            && Matches(tab, SEPARATOR, p.gap3) && Matches(tab, Digits(4), p.line)
  {
    hide Matches, Opt, Char, Digits;
    var rs, ps := PHONE_PARTS, p.Parts();
    if PartByPart(tab, rs, ps) {
      assert Matches(tab, rs[0], ps[0]) && Matches(tab, rs[1], ps[1]) && Matches(tab, rs[2], ps[2]);
      assert Matches(tab, rs[3], ps[3]) && Matches(tab, rs[4], ps[4]) && Matches(tab, rs[5], ps[5]);
      assert Matches(tab, rs[6], ps[6]) && Matches(tab, rs[7], ps[7]) && Matches(tab, rs[8], ps[8]);
      assert Matches(tab, rs[9], ps[9]);
    }
  }

  /** The phone pattern accepts exactly the phone numbers. */
  lemma {:induction false} PhonePatternMeans(tab: Table, u: string)
    ensures Matches(tab, PHONE.body, u) <==> exists p :: IsPhone(tab, u, p)
  {
    PhoneChain();
    hide Matches, IsPhone, Concat, Chain, PHONE, PHONE_PARTS;
    assert |PHONE_PARTS| == 10 by { TenParts(); }
    if Matches(tab, PHONE.body, u) {
      var ps := ChainParts(tab, PHONE_PARTS, u);
      var p := Phone(ps[0], ps[1], ps[2], ps[3], ps[4], ps[5], ps[6], ps[7], ps[8], ps[9]);
      assert p.Parts() == ps;
      PhonePartsMean(tab, p);
    }
    if p :| IsPhone(tab, u, p) {
      PhoneText(tab, u, p);
      PhonePartsMean(tab, p);
      ChainAccepts(tab, PHONE_PARTS, p.Parts());
    }
  }

  lemma {:induction false} TenParts()
    ensures |PHONE_PARTS| == 10
  {
  }

  lemma {:induction false} PhoneText(tab: Table, u: string, p: Phone)
    requires IsPhone(tab, u, p)
    ensures u == Concat(p.Parts())
  {
  }

  /** No stretch of the tokenised text is a phone number. */
  lemma {:induction false} NoPhoneLeft(tab: Table, text: string, ids: nat -> Id, k: nat, e: nat, p: Phone)
    requires k < e <= |Tokenised(tab, text, ids).text|
    ensures !IsPhone(tab, Tokenised(tab, text, ids).text[k..e], p)
  {
    hide Matches, Tokenised, IsPhone;
    var out := Tokenised(tab, text, ids).text;
    NothingLeftToMatch(tab, text, ids, PHONE, k, e - k);
    assert out[k..][..e - k] == out[k..e];
    PhonePatternMeans(tab, out[k..e]);
  }

  // -------------------------------------------------------------------------
  // Keys
  // -------------------------------------------------------------------------

  /** A letter in either case, with the two letters outside ASCII that fold to `s` and `k`. */
  ghost predicate IsSk(u: string) {
    |u| == 3 && u[0] in "sS\U{017F}" && u[1] in "kK\U{212A}" && u[2] == '-'
  }

  ghost predicate IsApi(u: string) {
    |u| == 3 && u[0] in "aA" && u[1] in "pP" && u[2] in "iI"
  }

  ghost predicate IsKeyWord(u: string) {
    |u| == 3 && u[0] in "kK\U{212A}" && u[1] in "eE" && u[2] in "yY"
  }

  ghost predicate IsDash(u: string) {
    u == "" || u == "_" || u == "-"
  }

  /** `api`, `key` and an equals sign, with an optional dash or underscore after each word. */
  ghost predicate IsNamed(u: string, api: string, dash1: string, key: string, dash2: string, equals: string) {
    && u == Concat([api, dash1, key, dash2, equals])
    && IsApi(api) && IsDash(dash1) && IsKeyWord(key) && IsDash(dash2) && OptionalChar('=', equals)
  }

  ghost predicate IsKeyPrefix(u: string) {
    IsSk(u) || exists api, dash1, key, dash2, equals :: IsNamed(u, api, dash1, key, dash2, equals)
  }

  predicate SecretChar(c: char) {
    AsciiLetter(c) || AsciiDigit(c) || c in "-_\U{017F}\U{212A}"
  }

  /** A prefix, any white space, and twenty or more key characters. */
  ghost predicate IsKey(tab: Table, u: string, prefix: string, gap: string, secret: string) {
    && u == prefix + (gap + secret) && IsKeyPrefix(prefix)
    && (forall i | 0 <= i < |gap| :: tab.space(gap[i]))
    && |secret| >= 20 && forall i | 0 <= i < |secret| :: SecretChar(secret[i])
  }

  lemma {:induction false} ThreeMean(tab: Table, a: string, b: string, c: string, u: string)
    ensures Matches(tab, Then(Set(OneOf(a)), Then(Set(OneOf(b)), Set(OneOf(c)))), u) <==>
            |u| == 3 && u[0] in a && u[1] in b && u[2] in c
  {
    var x, y, z := Set(OneOf(a)), Set(OneOf(b)), Set(OneOf(c));
    if Matches(tab, Then(x, Then(y, z)), u) {
      var p, q := Parted(tab, x, Then(y, z), u);
      var r, s := Parted(tab, y, z, q);
    }
    if |u| == 3 && u[0] in a && u[1] in b && u[2] in c {
      assert Matches(tab, x, u[..1]) && Matches(tab, y, u[1..2]) && Matches(tab, z, u[2..]);
      Joined(tab, y, z, u[1..2], u[2..]);
      Joined(tab, x, Then(y, z), u[..1], u[1..2] + u[2..]);
      assert u[..1] + (u[1..2] + u[2..]) == u;
    }
  }

  lemma {:induction false} DashMeans(tab: Table, u: string)
    ensures Matches(tab, DASH, u) <==> IsDash(u)
  {
    OptMeans(tab, OneOf("_-"), u);
    hide Matches;
    if |u| == 1 { assert u == [u[0]]; }
  }

  const NAMED_PARTS: seq<Expr> := [API_WORD, DASH, KEY_WORD, DASH, Opt(Char('='))]

  lemma {:induction false} NamedChain()
    ensures API_NAMED == Chain(NAMED_PARTS)
  {
    var ps := NAMED_PARTS;
    hide Opt, Char;
    forall i | 0 <= i < 4
      ensures Chain(ps[i..]) == Then(ps[i], Chain(ps[i + 1..]))
    {
      assert ps[i..][1..] == ps[i + 1..];
    }
    assert Chain(ps[4..]) == ps[4];
    assert Chain(ps[3..]) == Then(DASH, ps[4]);
    assert Chain(ps[2..]) == Then(KEY_WORD, Chain(ps[3..]));
    assert Chain(ps[1..]) == Then(DASH, Chain(ps[2..]));
    assert ps[0..] == ps;
  }

  lemma {:induction false} NamedMeans(tab: Table, u: string)
    ensures Matches(tab, API_NAMED, u) <==>
            exists api, dash1, key, dash2, equals :: IsNamed(u, api, dash1, key, dash2, equals)
  {
    NamedChain();
    hide Matches, Concat, Chain, API_NAMED, NAMED_PARTS;
    assert |NAMED_PARTS| == 5 by { FiveParts(); }
    if Matches(tab, API_NAMED, u) {
      var ps := ChainParts(tab, NAMED_PARTS, u);
      assert ps == [ps[0], ps[1], ps[2], ps[3], ps[4]];
      FiveMean(tab, ps[0], ps[1], ps[2], ps[3], ps[4]);
      assert IsNamed(u, ps[0], ps[1], ps[2], ps[3], ps[4]);
    }
    if api, dash1, key, dash2, equals :| IsNamed(u, api, dash1, key, dash2, equals) {
      FiveMean(tab, api, dash1, key, dash2, equals);
      ChainAccepts(tab, NAMED_PARTS, [api, dash1, key, dash2, equals]);
    }
  }

  lemma {:induction false} FiveParts()
    ensures |NAMED_PARTS| == 5
  {
  }

  lemma {:induction false} FiveMean(tab: Table, api: string, dash1: string, key: string, dash2: string, equals: string)
    ensures PartByPart(tab, NAMED_PARTS, [api, dash1, key, dash2, equals]) <==>
            IsApi(api) && IsDash(dash1) && IsKeyWord(key) && IsDash(dash2) && OptionalChar('=', equals)
  {
    ThreeMean(tab, "aA", "pP", "iI", api);
    DashMeans(tab, dash1);
    ThreeMean(tab, "kK\U{212A}", "eE", "yY", key);
    DashMeans(tab, dash2);
    OptCharMeans(tab, '=', equals);
    hide Matches, Opt, Char;
    var rs, ps := NAMED_PARTS, [api, dash1, key, dash2, equals];
    if PartByPart(tab, rs, ps) {
      assert Matches(tab, rs[0], ps[0]) && Matches(tab, rs[1], ps[1]) && Matches(tab, rs[2], ps[2]);
      assert Matches(tab, rs[3], ps[3]) && Matches(tab, rs[4], ps[4]);
    }
  }

  lemma {:induction false} PrefixMeans(tab: Table, u: string)
    ensures Matches(tab, API_PREFIX, u) <==> IsKeyPrefix(u)
  {
    ThreeMean(tab, "sS\U{017F}", "kK\U{212A}", "-", u);
    NamedMeans(tab, u);
    assert Matches(tab, API_PREFIX, u) <==> Matches(tab, API_SK, u) || Matches(tab, API_NAMED, u);
  }

  const SECRET_CLASS := Union(ALNUM, OneOf("-_\U{017F}\U{212A}"))

  lemma {:induction false} SecretMeans(tab: Table, gap: string, secret: string)
    ensures Matches(tab, Rep(Set(Space), 0, Unlimited), gap) <==> forall i | 0 <= i < |gap| :: tab.space(gap[i])
    ensures Matches(tab, Rep(Set(SECRET_CLASS), 20, Unlimited), secret) <==>
            |secret| >= 20 && forall i | 0 <= i < |secret| :: SecretChar(secret[i])
  {
    RunMeans(tab, Space, 0, Unlimited, gap);
    RunMeans(tab, SECRET_CLASS, 20, Unlimited, secret);
    hide Matches;
    forall c
      ensures In(tab, SECRET_CLASS, c) <==> SecretChar(c)
    {
      AlnumMeaning(tab, c);
    }
  }

  lemma {:induction false} KeyExpr()
    ensures API_KEY.body == Then(API_PREFIX, Then(Rep(Set(Space), 0, Unlimited), Rep(Set(SECRET_CLASS), 20, Unlimited)))
  {
  }

  /** The key pattern accepts exactly the keys. */
  lemma {:induction false} KeyPatternMeans(tab: Table, u: string)
    ensures Matches(tab, API_KEY.body, u) <==> exists prefix, gap, secret :: IsKey(tab, u, prefix, gap, secret)
  {
    hide Matches, IsKeyPrefix;
    KeyExpr();
    var b, c := Rep(Set(Space), 0, Unlimited), Rep(Set(SECRET_CLASS), 20, Unlimited);
    hide SECRET_CLASS, API_PREFIX, API_KEY;
    if Matches(tab, API_KEY.body, u) {
      var prefix, rest := Parted(tab, API_PREFIX, Then(b, c), u);
      var gap, secret := Parted(tab, b, c, rest);
      PrefixMeans(tab, prefix);
      SecretMeans(tab, gap, secret);
      assert IsKey(tab, u, prefix, gap, secret);
    }
    if prefix, gap, secret :| IsKey(tab, u, prefix, gap, secret) {
      PrefixMeans(tab, prefix);
      SecretMeans(tab, gap, secret);
      Joined(tab, b, c, gap, secret);
      Joined(tab, API_PREFIX, Then(b, c), prefix, gap + secret);
    }
  }

  /** `sk-` followed by twenty or more key characters is a key. */
  lemma {:induction false} SecretKeyAccepted(tab: Table, secret: string)
    requires |secret| >= 20 && forall i | 0 <= i < |secret| :: SecretChar(secret[i])
    ensures Matches(tab, API_KEY.body, "sk-" + secret)
  {
    hide Matches;
    KeyPatternMeans(tab, "sk-" + secret);
    assert "" + secret == secret;
    assert IsKey(tab, "sk-" + secret, "sk-", "", secret);
  }

  /** No stretch of the tokenised text is a key. */
  lemma {:induction false} NoKeyLeft(
    tab: Table, text: string, ids: nat -> Id, k: nat, e: nat, prefix: string, gap: string, secret: string)
    requires k < e <= |Tokenised(tab, text, ids).text|
    ensures !IsKey(tab, Tokenised(tab, text, ids).text[k..e], prefix, gap, secret)
  {
    hide Matches, Tokenised, IsKey;
    var out := Tokenised(tab, text, ids).text;
    NothingLeftToMatch(tab, text, ids, API_KEY, k, e - k);
    assert out[k..][..e - k] == out[k..e];
    KeyPatternMeans(tab, out[k..e]);
  }
}
