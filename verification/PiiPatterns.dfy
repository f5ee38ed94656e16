/** The five PII patterns, the placeholders that replace their matches, and why the two never overlap. */
module PiiPatterns {
  import opened Regex

  // -------------------------------------------------------------------------
  // The patterns, in the order the passes run
  // -------------------------------------------------------------------------

  function Opt(r: Expr): Expr {
    Rep(r, 0, AtMost(1))
  }

  function Char(c: char): Expr {
    Set(OneOf([c]))
  }

  const ALNUM := Union(Union(Range('a', 'z'), Range('A', 'Z')), Range('0', '9'))
  const SEPARATOR := Opt(Set(Union(Space, OneOf("-"))))

  // Case-insensitive letters: U+017F folds to `s` and U+212A folds to `k`.
  const FOLDED_S := Set(OneOf("sS\U{017F}"))
  const FOLDED_K := Set(OneOf("kK\U{212A}"))

  const API_WORD := Then(Set(OneOf("aA")), Then(Set(OneOf("pP")), Set(OneOf("iI"))))
  const KEY_WORD := Then(FOLDED_K, Then(Set(OneOf("eE")), Set(OneOf("yY"))))
  const DASH := Opt(Set(OneOf("_-")))

  const API_SK := Then(FOLDED_S, Then(FOLDED_K, Char('-')))
  const API_NAMED := Then(API_WORD, Then(DASH, Then(KEY_WORD, Then(DASH, Opt(Char('='))))))
  const API_PREFIX := Or(API_SK, API_NAMED)
  const API_SECRET :=
    Then(Rep(Set(Space), 0, Unlimited),
         Rep(Set(Union(ALNUM, OneOf("-_\U{017F}\U{212A}"))), 20, Unlimited))

  const API_KEY := Pattern("api_key", false, Then(API_PREFIX, API_SECRET))

  const EMAIL := Pattern("email", false,
    Then(Rep(Set(Union(ALNUM, OneOf("._%+-"))), 1, Unlimited),
         Then(Char('@'),
              Then(Rep(Set(Union(ALNUM, OneOf(".-"))), 1, Unlimited),
                   Then(Char('.'),
                        Rep(Set(Union(Range('a', 'z'), Range('A', 'Z'))), 2, Unlimited))))))

  const PHONE := Pattern("phone", false,
    Then(Opt(Char('+')),
         Then(Rep(Set(Range('0', '9')), 1, AtMost(3)),
              Then(SEPARATOR,
                   Then(Opt(Char('(')),
                        Then(Rep(Set(Digit), 3, AtMost(3)),
                             Then(Opt(Char(')')),
                                  Then(SEPARATOR,
                                       Then(Rep(Set(Digit), 3, AtMost(3)),
                                            Then(SEPARATOR, Rep(Set(Digit), 4, AtMost(4))))))))))))

  const CC := Pattern("cc", true, Rep(Set(Range('0', '9')), 13, AtMost(19)))

  const IP := Pattern("ip", true,
    Then(Rep(Then(Rep(Set(Digit), 1, AtMost(3)), Char('.')), 3, AtMost(3)),
         Rep(Set(Digit), 1, AtMost(3))))

  const LABELS: set<string> := {"api_key", "email", "phone", "cc", "ip"}

  const PATTERNS: seq<Pattern> := [API_KEY, EMAIL, PHONE, CC, IP]

  // -------------------------------------------------------------------------
  // Placeholders
  // -------------------------------------------------------------------------

  predicate HexDigit(c: char) {
    AsciiDigit(c) || 'a' <= c <= 'f'
  }

  /** The first eight characters of a version 4 UUID. */
  type Id = s: string | |s| == 8 && forall i | 0 <= i < |s| :: HexDigit(s[i]) witness "00000000"

  function Head(name: string): string {
    "PII_" + name + "_"
  }

  function Placeholder(name: string, id: Id): string {
    "[" + (Head(name) + id) + "]"
  }

  /** `[...]` with no bracket inside: the only thing the substitution proofs need to know of a placeholder. */
  ghost predicate Bracketed(p: string) {
    && |p| >= 2
    && p[0] == '['
    && p[|p| - 1] == ']'
    && forall i | 0 < i < |p| - 1 :: p[i] != '[' && p[i] != ']'
  }

  ghost predicate BracketFree(s: string) {
    forall i | 0 <= i < |s| :: s[i] != '[' && s[i] != ']'
  }

  lemma {:induction false} HeadCharacters(name: string)
    requires name in LABELS
    ensures |Head(name)| <= 12
    ensures forall c | c in Head(name) :: AsciiLetter(c) || c == '_'
  {
    assert Head("api_key") == "PII_api_key_";
    assert Head("email") == "PII_email_";
    assert Head("phone") == "PII_phone_";
    assert Head("cc") == "PII_cc_";
    assert Head("ip") == "PII_ip_";
  }

  lemma {:induction false} InteriorCharacter(name: string, id: Id, i: nat)
    requires name in LABELS && 0 < i < |Placeholder(name, id)| - 1
    ensures var c := Placeholder(name, id)[i];
            AsciiLetter(c) || c == '_' || (AsciiDigit(c) && i >= |Placeholder(name, id)| - 9)
    ensures |Placeholder(name, id)| <= 22
  {
    HeadCharacters(name);
    if i - 1 < |Head(name)| {
      assert Head(name)[i - 1] in Head(name);
    }
  }

  lemma {:induction false} PlaceholderBracketed(name: string, id: Id)
    requires name in LABELS
    ensures Bracketed(Placeholder(name, id))
  {
    var ph := Placeholder(name, id);
    forall i | 0 < i < |ph| - 1
      ensures ph[i] != '[' && ph[i] != ']'
    {
      InteriorCharacter(name, id, i);
    }
  }

  /** Placeholders with different ids differ, whatever their labels. */
  lemma {:induction false} PlaceholderInjective(a: string, ida: Id, b: string, idb: Id)
    requires Placeholder(a, ida) == Placeholder(b, idb)
    ensures ida == idb
  {
    var p, q := Placeholder(a, ida), Placeholder(b, idb);
    assert p[|p| - 9..|p| - 1] == ida;
    assert q[|q| - 9..|q| - 1] == idb;
  }

  // -------------------------------------------------------------------------
  // Pass separation
  // -------------------------------------------------------------------------

  predicate WithoutBrackets(cls: Class) {
    match cls
    case OneOf(chars) => '[' !in chars && ']' !in chars
    case Range(lo, hi) => hi < '[' || ']' < lo
    case Digit => true
    case Space => true
    case Union(a, b) => WithoutBrackets(a) && WithoutBrackets(b)
  }

  lemma {:induction false} WithoutBracketsSound(tab: Table, cls: Class, c: char)
    requires WithoutBrackets(cls) && In(tab, cls, c)
    ensures c != '[' && c != ']'
  {
    match cls
    case Union(a, b) => if In(tab, a, c) { WithoutBracketsSound(tab, a, c); } else { WithoutBracketsSound(tab, b, c); }
    case _ =>
  }

  lemma {:induction false} ApiSkClasses()
    ensures forall cls | cls in ClassesOf(API_SK) :: WithoutBrackets(cls)
  {
    assert ClassesOf(API_SK) == {FOLDED_S.cls, FOLDED_K.cls, OneOf("-")};
  }

  lemma {:induction false} ApiNamedClassSet()
    ensures ClassesOf(API_NAMED) ==
            {FOLDED_K.cls, OneOf("aA"), OneOf("pP"), OneOf("iI"), OneOf("eE"), OneOf("yY"), OneOf("_-"), OneOf("=")}
  {
  }

  lemma {:induction false} ApiNamedClasses()
    ensures forall cls | cls in ClassesOf(API_NAMED) :: WithoutBrackets(cls)
  {
    ApiNamedClassSet();
    hide ClassesOf;
  }

  lemma {:induction false} ApiSecretClasses()
    ensures forall cls | cls in ClassesOf(API_SECRET) :: WithoutBrackets(cls)
  {
    assert ClassesOf(API_SECRET) ==
           {Space, OneOf("-_\U{017F}\U{212A}"), Range('a', 'z'), Range('A', 'Z'), Range('0', '9')};
  }

  lemma {:induction false} ApiKeyClasses()
    ensures forall cls | cls in ClassesOf(API_KEY.body) :: WithoutBrackets(cls)
  {
    ApiSkClasses();
    ApiNamedClasses();
    ApiSecretClasses();
    assert ClassesOf(API_KEY.body) == ClassesOf(API_SK) + ClassesOf(API_NAMED) + ClassesOf(API_SECRET);
    hide ClassesOf, WithoutBrackets;
  }

  lemma {:induction false} EmailClassSet()
    ensures ClassesOf(EMAIL.body) ==
            {Range('a', 'z'), Range('A', 'Z'), Range('0', '9'), OneOf("._%+-"), OneOf("@"), OneOf(".-"), OneOf(".")}
  {
  }

  lemma {:induction false} EmailClasses()
    ensures forall cls | cls in ClassesOf(EMAIL.body) :: WithoutBrackets(cls)
  {
    EmailClassSet();
    hide ClassesOf;
  }

  lemma {:induction false} PhoneClassSet()
    ensures ClassesOf(PHONE.body) ==
            {OneOf("+"), OneOf("("), OneOf(")"), OneOf("-"), Space, Digit, Range('0', '9')}
  {
  }

  lemma {:induction false} PhoneClasses()
    ensures forall cls | cls in ClassesOf(PHONE.body) :: WithoutBrackets(cls)
  {
    PhoneClassSet();
    hide ClassesOf;
  }

  lemma {:induction false} IpClasses()
    ensures forall cls | cls in ClassesOf(IP.body) :: WithoutBrackets(cls)
  {
    assert ClassesOf(IP.body) == {Digit, OneOf(".")};
  }

  lemma {:induction false} PhoneAlphabet(tab: Table, c: char)
    requires AsciiLetter(c) || c == '_'
    ensures !Uses(tab, PHONE.body, c)
  {
    PhoneClassSet();
    assert c < '\U{80}' && !tab.digit(c) && !tab.space(c);
  }

  /** No string a pattern accepts contains a bracket. */
  ghost predicate MatchesBracketFree(tab: Table, p: Pattern) {
    forall u | Matches(tab, p.body, u) :: BracketFree(u)
  }

  /** Nothing strictly inside `ph` matches. */
  ghost predicate CleanInside(tab: Table, p: Pattern, ph: string) {
    forall k, e | 0 < k < e < |ph| :: !Matches(tab, p.body, ph[k..e])
  }

  ghost predicate PlaceholdersClean(tab: Table, p: Pattern) {
    forall name, id | name in LABELS :: CleanInside(tab, p, Placeholder(name, id))
  }

  /** An anchored pattern accepts only strings that begin and end with word characters. */
  ghost predicate AnchorsOnWords(tab: Table, p: Pattern) {
    p.anchored ==> forall u | Matches(tab, p.body, u) :: u != "" && tab.word(u[0]) && tab.word(u[|u| - 1])
  }

  ghost predicate Separated(tab: Table, p: Pattern) {
    p.name in LABELS && MatchesBracketFree(tab, p) && PlaceholdersClean(tab, p) && AnchorsOnWords(tab, p)
  }

  lemma {:induction false} BracketFreeFromClasses(tab: Table, p: Pattern)
    requires forall cls | cls in ClassesOf(p.body) :: WithoutBrackets(cls)
    ensures MatchesBracketFree(tab, p)
  {
    forall u, i | Matches(tab, p.body, u) && 0 <= i < |u|
      ensures u[i] != '[' && u[i] != ']'
    {
      UsesSound(tab, p.body, u);
      assert Uses(tab, p.body, u[i]);
      var cls :| cls in ClassesOf(p.body) && In(tab, cls, u[i]);
      WithoutBracketsSound(tab, cls, u[i]);
    }
  }

  /** Interiors are at most twenty characters long. */
  lemma {:induction false} InteriorTooShort(tab: Table, p: Pattern)
    requires MinLength(p.body) > 20
    ensures PlaceholdersClean(tab, p)
  {
    forall name, id: Id, k, e | name in LABELS && 0 < k < e < |Placeholder(name, id)|
      ensures !Matches(tab, p.body, Placeholder(name, id)[k..e])
    {
      InteriorCharacter(name, id, k);
      if Matches(tab, p.body, Placeholder(name, id)[k..e]) {
        MinLengthSound(tab, p.body, Placeholder(name, id)[k..e]);
      }
    }
  }

  /** Interiors hold only letters, digits and underscores. */
  lemma {:induction false} InteriorLacks(tab: Table, p: Pattern, c: char)
    requires Needs(p.body, c) && !AsciiLetter(c) && !AsciiDigit(c) && c != '_'
    ensures PlaceholdersClean(tab, p)
  {
    forall name, id: Id, k, e | name in LABELS && 0 < k < e < |Placeholder(name, id)|
      ensures !Matches(tab, p.body, Placeholder(name, id)[k..e])
    {
      var u := Placeholder(name, id)[k..e];
      forall i | 0 <= i < |u|
        ensures u[i] != c
      {
        InteriorCharacter(name, id, k + i);
      }
      if Matches(tab, p.body, u) {
        NeedsSound(tab, p.body, u, c);
      }
    }
  }

  /** Interiors end in only eight digits, and nothing before them can start a run of digits. */
  lemma {:induction false} InteriorLacksDigits(tab: Table, p: Pattern)
    requires MinLength(p.body) > 8
    requires forall c | AsciiLetter(c) || c == '_' :: !Uses(tab, p.body, c)
    ensures PlaceholdersClean(tab, p)
  {
    forall name, id: Id, k, e | name in LABELS && 0 < k < e < |Placeholder(name, id)|
      ensures !Matches(tab, p.body, Placeholder(name, id)[k..e])
    {
      var u := Placeholder(name, id)[k..e];
      assert u[0] in u;
      InteriorCharacter(name, id, k);
      if Matches(tab, p.body, u) {
        MinLengthSound(tab, p.body, u);
        UsesSound(tab, p.body, u);
      }
    }
  }

  /** No class of any pattern contains a bracket. */
  lemma {:induction false} PatternClasses(p: Pattern)
    requires p in PATTERNS
    ensures forall cls | cls in ClassesOf(p.body) :: WithoutBrackets(cls)
  {
    ApiKeyClasses();
    EmailClasses();
    PhoneClasses();
    CcClasses();
    IpClasses();
    hide ClassesOf, WithoutBrackets;
  }

  lemma {:induction false} CcClasses()
    ensures forall cls | cls in ClassesOf(CC.body) :: WithoutBrackets(cls)
  {
    assert ClassesOf(CC.body) == {Range('0', '9')};
  }

  lemma {:induction false} ApiKeySeparated(tab: Table)
    ensures Separated(tab, API_KEY)
  {
    ApiKeyClasses();
    BracketFreeFromClasses(tab, API_KEY);
    assert MinLength(API_KEY.body) == 23;
    InteriorTooShort(tab, API_KEY);
  }

  lemma {:induction false} EmailSeparated(tab: Table)
    ensures Separated(tab, EMAIL)
  {
    EmailClasses();
    BracketFreeFromClasses(tab, EMAIL);
    assert Needs(EMAIL.body, '@');
    InteriorLacks(tab, EMAIL, '@');
  }

  lemma {:induction false} PhoneSeparated(tab: Table)
    ensures Separated(tab, PHONE)
  {
    PhoneClasses();
    BracketFreeFromClasses(tab, PHONE);
    forall c | AsciiLetter(c) || c == '_'
      ensures !Uses(tab, PHONE.body, c)
    {
      PhoneAlphabet(tab, c);
    }
    assert MinLength(PHONE.body) == 11;
    InteriorLacksDigits(tab, PHONE);
  }

  lemma {:induction false} CcSeparated(tab: Table)
    ensures Separated(tab, CC)
  {
    CcClasses();
    assert ClassesOf(CC.body) == {Range('0', '9')};
    BracketFreeFromClasses(tab, CC);
    assert MinLength(CC.body) == 13;
    InteriorLacksDigits(tab, CC);
    DigitEdges(tab, CC);
  }

  lemma {:induction false} IpSeparated(tab: Table)
    ensures Separated(tab, IP)
  {
    IpClasses();
    BracketFreeFromClasses(tab, IP);
    assert Needs(IP.body, '.');
    InteriorLacks(tab, IP, '.');
    DigitEdges(tab, IP);
  }

  lemma {:induction false} DigitEdges(tab: Table, p: Pattern)
    requires StartsInDigit(p.body) && EndsInDigit(p.body)
    ensures AnchorsOnWords(tab, p)
  {
    forall u | Matches(tab, p.body, u)
      ensures u != "" && tab.word(u[0]) && tab.word(u[|u| - 1])
    {
      StartsInDigitSound(tab, p.body, u);
      EndsInDigitSound(tab, p.body, u);
    }
  }

  /**
    Pass separation: no match of any pattern contains a bracket or lies inside a placeholder, so no match
    can overlap a placeholder written by an earlier pass.
  */
  lemma {:induction false} PatternsSeparated(tab: Table)
    ensures forall p | p in PATTERNS :: Separated(tab, p)
  {
    hide Separated;
    ApiKeySeparated(tab);
    EmailSeparated(tab);
    PhoneSeparated(tab);
    CcSeparated(tab);
    IpSeparated(tab);
  }

  /** No prefix of a placeholder's tail matches, whatever follows the placeholder. */
  lemma {:induction false} PlaceholderTailRejected(tab: Table, p: Pattern, ph: string, k: nat, z: string, l: nat)
    requires Bracketed(ph) && CleanInside(tab, p, ph) && MatchesBracketFree(tab, p)
    requires k < |ph| && 0 < l <= |ph[k..] + z|
    ensures !Matches(tab, p.body, (ph[k..] + z)[..l])
  {
    var u := (ph[k..] + z)[..l];
    var close := |ph| - 1 - k;
    if k == 0 {
      assert u[0] == '[';
    } else if close < l {
      assert u[close] == ']';
    } else {
      assert u == ph[k..k + l];
    }
  }

  /** No match starts anywhere in a placeholder, whatever follows it. */
  lemma {:induction false} PlaceholderClean(tab: Table, p: Pattern, ph: string, left: bool, k: nat, z: string)
    requires Bracketed(ph) && CleanInside(tab, p, ph) && MatchesBracketFree(tab, p)
    requires k < |ph|
    ensures MatchLength(tab, p, left, ph[k..] + z) == 0
  {
    var s := ph[k..] + z;
    MatchLengthExact(tab, p, left, s);
    forall l: nat | 0 < l <= |s|
      ensures !Matches(tab, p.body, s[..l])
    {
      PlaceholderTailRejected(tab, p, ph, k, z, l);
    }
  }
}
