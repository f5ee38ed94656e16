/** What a label says about the piece it hides, where addresses and keys end, and what becomes of card numbers. */
module PiiLabels {
  import opened Regex
  import opened PiiPatterns
  import opened Substitution
  import opened Tokeniser
  import opened PiiTheorems
  import opened PiiFixedPoint
  import opened PiiShapes
  import opened PiiChains
  import opened PiiLongest
  import opened PiiExtent

  // -------------------------------------------------------------------------
  // What a label says about the hidden piece
  // -------------------------------------------------------------------------

  ghost predicate HiddenKey(tab: Table, e: Entry) {
    Labelled(e, "api_key") && exists prefix, gap, secret :: IsKey(tab, e.original, prefix, gap, secret)
  }

  ghost predicate HiddenEmail(e: Entry) {
    Labelled(e, "email") && exists local, host, tld :: IsEmail(e.original, local, host, tld)
  }

  ghost predicate HiddenPhone(tab: Table, e: Entry) {
    Labelled(e, "phone") && exists p :: IsPhone(tab, e.original, p)
  }

  ghost predicate HiddenAddress(tab: Table, e: Entry) {
    Labelled(e, "ip") && exists a, b, c, d :: IsAddress(tab, e.original, a, b, c, d)
  }

  ghost predicate HiddenCard(e: Entry) {
    Labelled(e, "cc") && 13 <= |e.original| <= 19 && forall i | 0 <= i < |e.original| :: AsciiDigit(e.original[i])
  }

  lemma {:induction false} HiddenAsOneOf(tab: Table, e: Entry)
    requires Genuine(tab, PATTERNS, e)
    ensures HiddenKey(tab, e) || HiddenEmail(e) || HiddenPhone(tab, e) || HiddenAddress(tab, e) || HiddenCard(e)
  {
    hide Matches, IsKey, IsEmail, IsPhone, IsAddress, Labelled;
    var p, id :| p in PATTERNS && e.placeholder == Placeholder(p.name, id) && Matches(tab, p.body, e.original);
    OnlyLabel(e, p, id);
    if p == API_KEY {
      KeyPatternMeans(tab, e.original);
    } else if p == EMAIL {
      EmailPatternMeans(tab, e.original);
    } else if p == PHONE {
      PhonePatternMeans(tab, e.original);
    } else if p == IP {
      AddressPatternMeans(tab, e.original);
    } else {
      CardPatternMeans(tab, e.original);
    }
  }

  /** Thirteen digits read as a phone number: country, area, exchange and line. */
  function AsPhone(u: string): Phone
    requires |u| == 13
  {
    Phone("", u[..3], "", "", u[3..6], "", "", u[6..9], "", u[9..])
  }

  lemma {:induction false} DigitsArePhone(tab: Table, u: string)
    requires |u| == 13 && forall i | 0 <= i < |u| :: AsciiDigit(u[i])
    ensures IsPhone(tab, u, AsPhone(u))
  {
    var p := AsPhone(u);
    TenConcat(p);
    assert u == u[..3] + (u[3..6] + (u[6..9] + u[9..]));
  }

  lemma {:induction false} TenConcat(p: Phone)
    requires p.plus == "" && p.gap1 == "" && p.open == "" && p.close == "" && p.gap2 == "" && p.gap3 == ""
    ensures Concat(p.Parts()) == p.country + (p.area + (p.exchange + p.line))
  {
    ConcatOne(p.line);
    ConcatTwo("", [p.line]);
    ConcatTwo(p.exchange, ["", p.line]);
    ConcatTwo("", [p.exchange, "", p.line]);
    ConcatTwo("", ["", p.exchange, "", p.line]);
    ConcatTwo(p.area, ["", "", p.exchange, "", p.line]);
    ConcatTwo("", [p.area, "", "", p.exchange, "", p.line]);
    ConcatTwo("", ["", p.area, "", "", p.exchange, "", p.line]);
    ConcatTwo(p.country, ["", "", p.area, "", "", p.exchange, "", p.line]);
    ConcatTwo("", [p.country, "", "", p.area, "", "", p.exchange, "", p.line]);
  }

  lemma {:induction false} HoleBehind(items: seq<Item>, e: Entry)
    requires e in Holes(items)
    ensures items != [] && (items[0] != Hole(e) ==> e in Holes(items[1..]))
  {
  }

  lemma {:induction false} FrontOfStage(items: seq<Item>, tags: set<string>) returns (front: string)
    requires items != []
    ensures ShownFor(items, tags) == front + ShownFor(items[1..], tags)
    ensures items[0].Hole? && (forall tag | Labelled(items[0].entry, tag) :: tag !in tags) ==>
            front == items[0].entry.original
  {
    hide Labelled;
    var x := items[0];
    front := if x.Hole? && forall tag | Labelled(x.entry, tag) :: tag !in tags then Meant(x) else Shown(x);
  }

  /** A piece that is not hidden at a stage is a stretch of the text of that stage. */
  lemma {:induction false} StretchOfStage(items: seq<Item>, tags: set<string>, e: Entry) returns (k: nat)
    requires e in Holes(items) && forall tag | Labelled(e, tag) :: tag !in tags
    ensures k + |e.original| <= |ShownFor(items, tags)| && ShownFor(items, tags)[k..k + |e.original|] == e.original
  {
    hide Labelled, Holes;
    assert items != [] && (items[0] != Hole(e) ==> e in Holes(items[1..])) by { HoleBehind(items, e); }
    var front := FrontOfStage(items, tags);
    var rest := ShownFor(items[1..], tags);
    if items[0] == Hole(e) {
      k := 0;
      assert (front + rest)[..|front|] == front;
    } else {
      var d := StretchOfStage(items[1..], tags, e);
      k := |front| + d;
      assert (front + rest)[k..k + |e.original|] == rest[d..d + |e.original|];
    }
  }

  /** Any thirteen digits in a row are a phone number, so a text without phone numbers has no card number. */
  lemma {:induction false} PhoneFreeNoCard(tab: Table, t: string, k: nat, u: string)
    requires k + |u| <= |t| && t[k..k + |u|] == u
    requires |u| >= 13 && forall i | 0 <= i < |u| :: AsciiDigit(u[i])
    ensures !PhoneFree(tab, t)
  {
    hide IsPhone;
    DigitsArePhone(tab, u[..13]);
    assert t[k..k + 13] == u[..13];
  }

  /**
    Each hidden piece is what its label says, and no piece is ever labelled as a card number: the phone pattern runs
    first and takes thirteen digits of it.
  */
  lemma {:induction false} HiddenAsLabelled(tab: Table, text: string, ids: nat -> Id, e: Entry)
    requires e in Tokenised(tab, text, ids).log
    ensures HiddenKey(tab, e) || HiddenEmail(e) || HiddenPhone(tab, e) || HiddenAddress(tab, e)
    ensures !Labelled(e, "cc")
  {
    hide Tokenised, Genuine, Holes, ShownFor, PhoneFree, KeyFree, EmailFree, Labelled, IsKey, IsEmail, IsPhone,
        IsAddress;
    var items := TokenisedExtent(tab, text, ids);
    assert e in multiset(Tokenised(tab, text, ids).log);
    assert Genuine(tab, PATTERNS, e);
    HiddenAsOneOf(tab, e);
    if Labelled(e, "cc") {
      forall tag | Labelled(e, tag)
        ensures tag == "cc"
      {
        LabelUnique(e, "cc", tag);
      }
      var k := StretchOfStage(items, {"api_key", "email", "phone"}, e);
      PhoneFreeNoCard(tab, ShownFor(items, {"api_key", "email", "phone"}), k, e.original);
    }
  }

  // -------------------------------------------------------------------------
  // Where a hidden address or key ends
  // -------------------------------------------------------------------------

  lemma {:induction false} EmailHasAt(u: string, local: string, host: string, tld: string)
    requires IsEmail(u, local, host, tld)
    ensures '@' in u
  {
    assert u[|local|] == '@';
  }

  predicate ClassLacksAt(cls: Class) {
    match cls
    case OneOf(chars) => '@' !in chars
    case Range(lo, hi) => hi < '@' || '@' < lo
    case Digit => true
    case Space => true
    case Union(a, b) => ClassLacksAt(a) && ClassLacksAt(b)
  }

  predicate LacksAt(r: Expr) {
    match r
    case Set(cls) => ClassLacksAt(cls)
    case Then(a, b) => LacksAt(a) && LacksAt(b)
    case Or(a, b) => LacksAt(a) && LacksAt(b)
    case Rep(a, _, _) => LacksAt(a)
  }

  lemma {:induction false} ClassLacksAtSound(tab: Table, cls: Class)
    requires ClassLacksAt(cls)
    ensures !In(tab, cls, '@')
  {
    match cls
    case Union(a, b) =>
      ClassLacksAtSound(tab, a);
      ClassLacksAtSound(tab, b);
    case _ => assert !tab.digit('@') && !tab.space('@');
  }

  lemma {:induction false} LacksAtSound(tab: Table, r: Expr, u: string)
    requires LacksAt(r) && Matches(tab, r, u)
    ensures '@' !in u
    decreases r, 0
  {
    match r
    case Set(cls) => ClassLacksAtSound(tab, cls);
    case Or(a, b) => if Matches(tab, a, u) { LacksAtSound(tab, a, u); } else { LacksAtSound(tab, b, u); }
    case Then(a, b) =>
      var v, w := Parted(tab, a, b, u);
      LacksAtSound(tab, a, v);
      LacksAtSound(tab, b, w);
    case Rep(a, lo, hi) => RepLacksAt(tab, a, lo, hi, u);
  }

  lemma {:induction false} RepLacksAt(tab: Table, a: Expr, lo: nat, hi: Limit, u: string)
    requires LacksAt(a) && MatchesRep(tab, a, lo, hi, u)
    ensures '@' !in u
    decreases a, 1, |u|
  {
    if !(lo == 0 && u == "") {
      var k :| 0 < k <= |u| && Matches(tab, a, u[..k]) && MatchesRep(tab, a, Pred(lo), hi.Less(), u[k..]);
      LacksAtSound(tab, a, u[..k]);
      RepLacksAt(tab, a, Pred(lo), hi.Less(), u[k..]);
      assert u == u[..k] + u[k..];
    }
  }

  lemma {:induction false} KeyLacksAt()
    ensures LacksAt(API_KEY.body)
  {
    assert LacksAt(API_SK) && LacksAt(API_SECRET);
    assert LacksAt(API_WORD) && LacksAt(KEY_WORD) && LacksAt(DASH);
  }

  lemma {:induction false} PhoneLacksAt()
    ensures LacksAt(PHONE.body) && LacksAt(IP.body)
  {
  }

  lemma {:induction false} OthersLackAt(tab: Table, e: Entry)
    requires HiddenKey(tab, e) || HiddenPhone(tab, e) || HiddenAddress(tab, e)
    ensures '@' !in e.original
  {
    hide Matches, IsKey, IsPhone, IsAddress, LacksAt;
    KeyLacksAt();
    PhoneLacksAt();
    if HiddenKey(tab, e) {
      KeyPatternMeans(tab, e.original);
      LacksAtSound(tab, API_KEY.body, e.original);
    } else if HiddenPhone(tab, e) {
      PhonePatternMeans(tab, e.original);
      LacksAtSound(tab, PHONE.body, e.original);
    } else {
      AddressPatternMeans(tab, e.original);
      LacksAtSound(tab, IP.body, e.original);
    }
  }

  /** The characters around a hidden email address: no letter after it, no character of a local part before it. */
  lemma {:induction false} AroundEmail(
      tab: Table, text: string, ids: nat -> Id, items: seq<Item>, i: nat, local: string, host: string, tld: string)
    requires Framed(tab, items) && Holes(items) == multiset(Tokenised(tab, text, ids).log)
    requires i < |items| && items[i].Hole? && IsEmail(items[i].entry.original, local, host, tld)
    ensures i + 1 < |items| && items[i + 1].Keep? ==> !AsciiLetter(items[i + 1].c)
    ensures i > 0 && items[i - 1].Keep? ==> !LocalChar(items[i - 1].c)
  {
    hide Tokenised, Labelled, IsKey, IsPhone, IsAddress;
    var e := items[i].entry;
    HoleAt(items, i);
    assert e in multiset(Tokenised(tab, text, ids).log);
    HiddenAsLabelled(tab, text, ids, e);
    EmailHasAt(e.original, local, host, tld);
    if !HiddenEmail(e) { OthersLackAt(tab, e); }
    if i + 1 < |items| { assert Adjacent(tab, items[i], items[i + 1]); }
    if i > 0 { assert Adjacent(tab, items[i - 1], items[i]); }
  }

  lemma {:induction false} HoleAt(items: seq<Item>, i: nat)
    requires i < |items| && items[i].Hole?
    ensures items[i].entry in Holes(items)
  {
    if i > 0 {
      HoleAt(items[1..], i - 1);
      TailHoles(items);
    }
  }

  lemma {:induction false} KeyIsLong(tab: Table, e: Entry)
    requires HiddenPhone(tab, e) || HiddenAddress(tab, e)
    ensures |e.original| <= 19
  {
    if p :| IsPhone(tab, e.original, p) && HiddenPhone(tab, e) {
      PhoneLength(tab, e.original, p);
    }
  }

  lemma {:induction false} PhoneLength(tab: Table, u: string, p: Phone)
    requires IsPhone(tab, u, p)
    ensures |u| <= 19
  {
    hide IsDigits, IsGap, OptionalChar;
    PhoneSizes(tab, u, p);
    ConcatOne(p.line);
    ConcatTwo(p.gap3, [p.line]);
    ConcatTwo(p.exchange, [p.gap3, p.line]);
    ConcatTwo(p.gap2, [p.exchange, p.gap3, p.line]);
    ConcatTwo(p.close, [p.gap2, p.exchange, p.gap3, p.line]);
    ConcatTwo(p.area, [p.close, p.gap2, p.exchange, p.gap3, p.line]);
    ConcatTwo(p.open, [p.area, p.close, p.gap2, p.exchange, p.gap3, p.line]);
    ConcatTwo(p.gap1, [p.open, p.area, p.close, p.gap2, p.exchange, p.gap3, p.line]);
    ConcatTwo(p.country, [p.gap1, p.open, p.area, p.close, p.gap2, p.exchange, p.gap3, p.line]);
    ConcatTwo(p.plus, [p.country, p.gap1, p.open, p.area, p.close, p.gap2, p.exchange, p.gap3, p.line]);
  }

  lemma {:induction false} PhoneSizes(tab: Table, u: string, p: Phone)
    requires IsPhone(tab, u, p)
    ensures |p.plus| <= 1 && |p.country| <= 3 && |p.gap1| <= 1 && |p.open| <= 1 && |p.area| <= 3 && |p.close| <= 1
    ensures |p.gap2| <= 1 && |p.exchange| <= 3 && |p.gap3| <= 1 && |p.line| <= 4
  {
  }

  /** After a hidden key comes no further key character. */
  lemma {:induction false} AfterKey(
      tab: Table, text: string, ids: nat -> Id, items: seq<Item>, i: nat, prefix: string, gap: string, secret: string)
    requires Framed(tab, items) && Holes(items) == multiset(Tokenised(tab, text, ids).log)
    requires i + 1 < |items| && items[i].Hole? && IsKey(tab, items[i].entry.original, prefix, gap, secret)
    ensures items[i + 1].Keep? ==> !SecretChar(items[i + 1].c)
  {
    hide Tokenised, Labelled, IsEmail, IsPhone, IsAddress, IsKeyPrefix;
    var e := items[i].entry;
    HoleAt(items, i);
    assert e in multiset(Tokenised(tab, text, ids).log);
    HiddenAsLabelled(tab, text, ids, e);
    assert HiddenKey(tab, e) by { LongOrAt(tab, e, prefix, gap, secret); }
    assert Adjacent(tab, items[i], items[i + 1]);
  }

  lemma {:induction false} LongOrAt(tab: Table, e: Entry, prefix: string, gap: string, secret: string)
    requires IsKey(tab, e.original, prefix, gap, secret)
    requires HiddenKey(tab, e) || HiddenEmail(e) || HiddenPhone(tab, e) || HiddenAddress(tab, e)
    ensures HiddenKey(tab, e)
  {
    hide Matches, IsKeyPrefix, IsPhone, IsAddress, Labelled, LacksAt;
    if HiddenEmail(e) {
      var local, host, tld :| IsEmail(e.original, local, host, tld);
      EmailHasAt(e.original, local, host, tld);
    } else if !HiddenKey(tab, e) {
      KeyIsLong(tab, e);
    }
    KeyLacksAt();
    KeyPatternMeans(tab, e.original);
    LacksAtSound(tab, API_KEY.body, e.original);
  }

  // -------------------------------------------------------------------------
  // A card number alone
  // -------------------------------------------------------------------------

  lemma {:induction false} CleanIf(tab: Table, p: Pattern, left: bool, s: string)
    requires forall k, e | 0 <= k < e <= |s| :: !Matches(tab, p.body, s[k..e])
    ensures Clean(tab, p, left, s)
    decreases |s|
  {
    hide MatchLength, Matches;
    if s != "" {
      MatchLengthExact(tab, p, left, s);
      assert forall e | 0 < e <= |s| :: s[0..e] == s[..e];
      forall k, e | 0 <= k < e <= |s[1..]|
        ensures !Matches(tab, p.body, s[1..][k..e])
      {
        assert s[1..][k..e] == s[k + 1..e + 1];
      }
      CleanIf(tab, p, tab.word(s[0]), s[1..]);
    }
  }

  ghost predicate AllDigits(s: string) {
    forall i | 0 <= i < |s| :: AsciiDigit(s[i])
  }

  lemma {:induction false} KeyStart(tab: Table, u: string, prefix: string, gap: string, secret: string)
    requires IsKey(tab, u, prefix, gap, secret)
    ensures u != "" && !AsciiDigit(u[0])
  {
    if !IsSk(prefix) { TailOf(prefix); }
    assert u[0] == prefix[0];
  }

  lemma {:induction false} DigitsNoKey(tab: Table, u: string)
    requires AllDigits(u)
    ensures !Matches(tab, API_KEY.body, u)
  {
    hide Matches, IsKey;
    KeyPatternMeans(tab, u);
    if prefix, gap, secret :| IsKey(tab, u, prefix, gap, secret) {
      KeyStart(tab, u, prefix, gap, secret);
      assert false;
    }
  }

  lemma {:induction false} DigitsNoEmail(tab: Table, u: string)
    requires AllDigits(u)
    ensures !Matches(tab, EMAIL.body, u)
  {
    hide Matches;
    if Matches(tab, EMAIL.body, u) {
      NeedsSound(tab, EMAIL.body, u, '@');
      assert false;
    }
  }

  lemma {:induction false} DigitsNoAddress(tab: Table, u: string)
    requires AllDigits(u)
    ensures !Matches(tab, IP.body, u)
  {
    hide Matches;
    assert Needs(IP.body, '.');
    if Matches(tab, IP.body, u) {
      NeedsSound(tab, IP.body, u, '.');
      assert false;
    }
  }

  lemma {:induction false} DigitsClean(tab: Table, left: bool, s: string)
    requires AllDigits(s)
    ensures Clean(tab, API_KEY, left, s) && Clean(tab, EMAIL, left, s) && Clean(tab, IP, left, s)
    ensures |s| <= 10 ==> Clean(tab, PHONE, left, s) && Clean(tab, CC, left, s)
  {
    hide Matches, Clean;
    forall k, e | 0 <= k < e <= |s|
      ensures !Matches(tab, API_KEY.body, s[k..e]) && !Matches(tab, EMAIL.body, s[k..e])
      ensures !Matches(tab, IP.body, s[k..e])
      ensures |s| <= 10 ==> !Matches(tab, PHONE.body, s[k..e]) && !Matches(tab, CC.body, s[k..e])
    {
      DigitsNoKey(tab, s[k..e]);
      DigitsNoEmail(tab, s[k..e]);
      DigitsNoAddress(tab, s[k..e]);
      if |s| <= 10 { TooShort(tab, s[k..e]); }
    }
    CleanIf(tab, API_KEY, left, s);
    CleanIf(tab, EMAIL, left, s);
    CleanIf(tab, IP, left, s);
    if |s| <= 10 {
      CleanIf(tab, PHONE, left, s);
      CleanIf(tab, CC, left, s);
    }
  }

  lemma {:induction false} TooShort(tab: Table, u: string)
    requires |u| <= 10
    ensures !Matches(tab, PHONE.body, u) && !Matches(tab, CC.body, u)
  {
    hide Matches;
    assert MinLength(PHONE.body) == 11 && MinLength(CC.body) == 13;
    if Matches(tab, PHONE.body, u) {
      MinLengthSound(tab, PHONE.body, u);
      assert false;
    }
    if Matches(tab, CC.body, u) {
      MinLengthSound(tab, CC.body, u);
      assert false;
    }
  }

  /** Of thirteen digits or more the phone pattern takes exactly thirteen. */
  lemma {:induction false} PhoneTakesThirteen(tab: Table, left: bool, s: string)
    requires |s| >= 13 && AllDigits(s)
    ensures MatchLength(tab, PHONE, left, s) == 13
  {
    hide Matches, MatchLength, IsPhone;
    DigitsArePhone(tab, s[..13]);
    PhonePatternMeans(tab, s[..13]);
    LongestMatch(tab, PHONE, left, s, 13);
    MatchLengthExact(tab, PHONE, left, s);
    var u := s[..MatchLength(tab, PHONE, left, s)];
    PhonePatternMeans(tab, u);
    var p :| IsPhone(tab, u, p);
    DigitPhone(tab, u, p);
  }

  lemma {:induction false} DigitPhone(tab: Table, u: string, p: Phone)
    requires IsPhone(tab, u, p) && AllDigits(u)
    ensures |u| <= 13
  {
    PhonePatternMeans(tab, u);
    PhoneIs();
    hide Matches, IsPhone, PHONE, NATIONAL;
    var plus, rest := Parted(tab, Opt(Char('+')), ABROAD, u);
    var country, national := Parted(tab, COUNTRY, NATIONAL, rest);
    NationalCounts(tab);
    CountryMeans(tab, country);
    OptCharMeans(tab, '+', plus);
    assert (plus + rest)[0] == u[0];
    assert plus == "" && rest == u;
    assert forall i | 0 <= i < |national| :: national[i] == u[|country| + i];
    CountAll(tab, national);
  }

  /**
    A card number alone is hidden as a phone number as far as its first thirteen digits go; the others, three of
    sixteen, stay in the text.
  */
  lemma {:induction false} CardLosesItsTail(tab: Table, text: string, ids: nat -> Id)
    requires 13 <= |text| <= 19 && AllDigits(text)
    ensures var placeholder := "[PII_phone_" + ids(0) + "]";
            Tokenised(tab, text, ids) == Scan(placeholder + text[13..], [Entry(placeholder, text[..13])])
  {
    hide Pass, Passes, Clean, MatchLength, API_KEY, EMAIL, PHONE, CC, IP, Placeholder;
    DigitsClean(tab, false, text);
    PlaceholderText("phone", ids(0));
    assert "[PII_" + "phone" + "_" == "[PII_phone_";
    var ph, tail := Placeholder("phone", ids(0)), text[13..];
    PhonePass(tab, text, ids);
    AfterPhone(tab, ids(0), tail);
    CleanPass(tab, API_KEY, false, text, ids, 0);
    CleanPass(tab, EMAIL, false, text, ids, 0);
    CleanPasses(tab, [CC, IP], ph + tail, ids, 1);
    var e := Entry(ph, text[..13]);
    PassesUnfold(tab, [PHONE, CC, IP], text, ids, 0);
    assert [PHONE, CC, IP][1..] == [CC, IP] && [e] + [] == [e];
    assert Passes(tab, [PHONE, CC, IP], text, ids, 0) == Scan(ph + tail, [e]);
    PassesUnfold(tab, [EMAIL, PHONE, CC, IP], text, ids, 0);
    assert [EMAIL, PHONE, CC, IP][1..] == [PHONE, CC, IP] && [] + [e] == [e];
    assert Passes(tab, [EMAIL, PHONE, CC, IP], text, ids, 0) == Scan(ph + tail, [e]);
    PassesUnfold(tab, PATTERNS, text, ids, 0);
    assert PATTERNS[1..] == [EMAIL, PHONE, CC, IP] && PATTERNS[0] == API_KEY;
    assert Passes(tab, PATTERNS, text, ids, 0) == Scan(ph + tail, [e]);
  }

  lemma {:induction false} PhonePass(tab: Table, text: string, ids: nat -> Id)
    requires 13 <= |text| <= 19 && AllDigits(text)
    ensures var ph := Placeholder("phone", ids(0));
            Pass(tab, PHONE, false, text, ids, 0) == Scan(ph + text[13..], [Entry(ph, text[..13])])
  {
    hide Pass, Clean, MatchLength;
    PhoneTakesThirteen(tab, false, text);
    assert text[0..] == text;
    PassReplaces(tab, PHONE, false, text, 0, ids, 0, 13);
    DigitsClean(tab, tab.word(text[12]), text[13..]);
    CleanPass(tab, PHONE, tab.word(text[12]), text[13..], ids, 1);
  }

  lemma {:induction false} AfterPhone(tab: Table, id: Id, rest: string)
    requires |rest| <= 10 && AllDigits(rest)
    ensures Clean(tab, CC, false, Placeholder("phone", id) + rest)
    ensures Clean(tab, IP, false, Placeholder("phone", id) + rest)
  {
    hide Clean, MatchesBracketFree, CleanInside;
    var ph := Placeholder("phone", id);
    PatternsSeparated(tab);
    assert Separated(tab, CC) && Separated(tab, IP);
    PlaceholderFacts(tab, CC, "phone", id);
    PlaceholderFacts(tab, IP, "phone", id);
    DigitsClean(tab, false, rest);
    assert ph[0..] == ph;
    CleanAfter(tab, CC, false, ph, 0, rest);
    CleanAfter(tab, IP, false, ph, 0, rest);
  }
}
