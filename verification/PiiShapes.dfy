/** What the patterns catch, in plain terms: the strings a reader would call an email, a card number, and so on. */
module PiiShapes {
  import opened Regex
  import opened PiiPatterns
  import opened Tokeniser
  import opened PiiFixedPoint

  ghost predicate AllIn(tab: Table, cls: Class, u: string) {
    forall i | 0 <= i < |u| :: In(tab, cls, u[i])
  }

  /** A repeated class accepts the strings over the class whose length is in range. */
  lemma {:induction false} RepeatedClass(tab: Table, cls: Class, lo: nat, hi: Limit, u: string)
    ensures MatchesRep(tab, Set(cls), lo, hi, u) <==>
            lo <= |u| && (hi.AtMost? ==> |u| <= hi.n) && AllIn(tab, cls, u)
    decreases |u|
  {
    if u != "" && hi.Positive() {
      RepeatedClass(tab, cls, Pred(lo), hi.Less(), u[1..]);
      assert u == u[..1] + u[1..];
      assert Matches(tab, Set(cls), u[..1]) <==> In(tab, cls, u[0]);
    }
  }

  lemma {:induction false} Joined(tab: Table, a: Expr, b: Expr, u: string, v: string)
    requires Matches(tab, a, u) && Matches(tab, b, v)
    ensures Matches(tab, Then(a, b), u + v)
  {
    assert (u + v)[..|u|] == u && (u + v)[|u|..] == v;
  }

  lemma {:induction false} Parted(tab: Table, a: Expr, b: Expr, w: string) returns (u: string, v: string)
    requires Matches(tab, Then(a, b), w)
    ensures w == u + v && Matches(tab, a, u) && Matches(tab, b, v)
  {
    var k :| 0 <= k <= |w| && Matches(tab, a, w[..k]) && Matches(tab, b, w[k..]);
    u, v := w[..k], w[k..];
  }

  // -------------------------------------------------------------------------
  // Email addresses
  // -------------------------------------------------------------------------

  predicate LocalChar(c: char) {
    AsciiLetter(c) || AsciiDigit(c) || c in "._%+-"
  }

  predicate HostChar(c: char) {
    AsciiLetter(c) || AsciiDigit(c) || c in ".-"
  }

  ghost predicate IsEmail(u: string, local: string, host: string, tld: string) {
    && u == local + ("@" + (host + ("." + tld)))
    && |local| >= 1 && (forall i | 0 <= i < |local| :: LocalChar(local[i]))
    && |host| >= 1 && (forall i | 0 <= i < |host| :: HostChar(host[i]))
    && |tld| >= 2 && (forall i | 0 <= i < |tld| :: AsciiLetter(tld[i]))
  }

  const LOCAL_CLASS := Union(ALNUM, OneOf("._%+-"))
  const HOST_CLASS := Union(ALNUM, OneOf(".-"))
  const TLD_CLASS := Union(Range('a', 'z'), Range('A', 'Z'))

  lemma {:induction false} AlnumMeaning(tab: Table, c: char)
    ensures In(tab, ALNUM, c) <==> AsciiLetter(c) || AsciiDigit(c)
  {
    assert In(tab, Union(Range('a', 'z'), Range('A', 'Z')), c) <==> AsciiLetter(c);
  }

  lemma {:induction false} EmailClassMeaning(tab: Table, c: char)
    ensures In(tab, LOCAL_CLASS, c) <==> LocalChar(c)
    ensures In(tab, HOST_CLASS, c) <==> HostChar(c)
    ensures In(tab, TLD_CLASS, c) <==> AsciiLetter(c)
  {
    AlnumMeaning(tab, c);
  }

  lemma {:induction false} EmailExpr()
    ensures EMAIL.body == Then(Rep(Set(LOCAL_CLASS), 1, Unlimited), Then(Char('@'),
                               Then(Rep(Set(HOST_CLASS), 1, Unlimited),
                                   Then(Char('.'), Rep(Set(TLD_CLASS), 2, Unlimited)))))
  {
  }

  lemma {:induction false} EmailAccepted(tab: Table, u: string, local: string, host: string, tld: string)
    requires IsEmail(u, local, host, tld)
    ensures Matches(tab, EMAIL.body, u)
  {
    hide Matches, MatchesRep;
    EmailParts(tab, local, host, tld);
    var a, b, c := Rep(Set(LOCAL_CLASS), 1, Unlimited), Rep(Set(HOST_CLASS), 1, Unlimited),
        Rep(Set(TLD_CLASS), 2, Unlimited);
    Joined(tab, Char('.'), c, ".", tld);
    Joined(tab, b, Then(Char('.'), c), host, "." + tld);
    Joined(tab, Char('@'), Then(b, Then(Char('.'), c)), "@", host + ("." + tld));
    Joined(tab, a, Then(Char('@'), Then(b, Then(Char('.'), c))), local, "@" + (host + ("." + tld)));
    EmailExpr();
  }

  lemma {:induction false} EmailParts(tab: Table, local: string, host: string, tld: string)
    ensures Matches(tab, Char('@'), "@") && Matches(tab, Char('.'), ".")
    ensures Matches(tab, Rep(Set(LOCAL_CLASS), 1, Unlimited), local) <==>
        |local| >= 1 && forall i | 0 <= i < |local| :: LocalChar(local[i])
    ensures Matches(tab, Rep(Set(HOST_CLASS), 1, Unlimited), host) <==>
        |host| >= 1 && forall i | 0 <= i < |host| :: HostChar(host[i])
    ensures Matches(tab, Rep(Set(TLD_CLASS), 2, Unlimited), tld) <==>
        |tld| >= 2 && forall i | 0 <= i < |tld| :: AsciiLetter(tld[i])
  {
    hide MatchesRep;
    RepeatedClass(tab, LOCAL_CLASS, 1, Unlimited, local);
    RepeatedClass(tab, HOST_CLASS, 1, Unlimited, host);
    RepeatedClass(tab, TLD_CLASS, 2, Unlimited, tld);
    forall c
      ensures (In(tab, LOCAL_CLASS, c) <==> LocalChar(c)) && (In(tab, HOST_CLASS, c) <==> HostChar(c))
      ensures In(tab, TLD_CLASS, c) <==> AsciiLetter(c)
    {
      EmailClassMeaning(tab, c);
    }
  }

  lemma {:induction false} OneCharMatch(tab: Table, c: char, u: string)
    requires Matches(tab, Char(c), u)
    ensures u == [c]
  {
  }

  /** The email pattern accepts exactly the strings `local@host.tld`. */
  lemma {:induction false} EmailPatternMeans(tab: Table, u: string)
    ensures Matches(tab, EMAIL.body, u) <==> exists local, host, tld :: IsEmail(u, local, host, tld)
  {
    hide Matches, MatchesRep;
    if Matches(tab, EMAIL.body, u) {
      EmailExpr();
      var a, b, c := Rep(Set(LOCAL_CLASS), 1, Unlimited), Rep(Set(HOST_CLASS), 1, Unlimited),
          Rep(Set(TLD_CLASS), 2, Unlimited);
      var local, r1 := Parted(tab, a, Then(Char('@'), Then(b, Then(Char('.'), c))), u);
      var at, r2 := Parted(tab, Char('@'), Then(b, Then(Char('.'), c)), r1);
      var host, r3 := Parted(tab, b, Then(Char('.'), c), r2);
      var dot, tld := Parted(tab, Char('.'), c, r3);
      OneCharMatch(tab, '@', at);
      OneCharMatch(tab, '.', dot);
      EmailParts(tab, local, host, tld);
      assert IsEmail(u, local, host, tld);
    }
    if local, host, tld :| IsEmail(u, local, host, tld) {
      EmailAccepted(tab, u, local, host, tld);
    }
  }

  /** No stretch of the tokenised text is an email address. */
  lemma {:induction false} NoEmailLeft(
      tab: Table, text: string, ids: nat -> Id, k: nat, e: nat, local: string, host: string, tld: string)
    requires k <= e <= |Tokenised(tab, text, ids).text|
    ensures !IsEmail(Tokenised(tab, text, ids).text[k..e], local, host, tld)
  {
    hide Matches, Tokenised;
    var out := Tokenised(tab, text, ids).text;
    NothingLeftToMatch(tab, text, ids, EMAIL, k, e - k);
    assert out[k..][..e - k] == out[k..e];
    if IsEmail(out[k..e], local, host, tld) {
      EmailAccepted(tab, out[k..e], local, host, tld);
    }
  }

  // -------------------------------------------------------------------------
  // Card numbers
  // -------------------------------------------------------------------------

  /** The card pattern accepts exactly the runs of 13 to 19 ASCII digits. */
  lemma {:induction false} CardPatternMeans(tab: Table, u: string)
    ensures Matches(tab, CC.body, u) <==> 13 <= |u| <= 19 && forall i | 0 <= i < |u| :: AsciiDigit(u[i])
  {
    hide MatchesRep;
    RepeatedClass(tab, Range('0', '9'), 13, AtMost(19), u);
  }

  /** Every run of 13 to 19 digits left in the tokenised text touches a word character. */
  lemma {:induction false} NoCardLeft(tab: Table, text: string, ids: nat -> Id, k: nat, e: nat)
    requires k + 13 <= e <= k + 19 && e <= |Tokenised(tab, text, ids).text|
    requires forall i | k <= i < e :: AsciiDigit(Tokenised(tab, text, ids).text[i])
    ensures (k > 0 && tab.word(Tokenised(tab, text, ids).text[k - 1])) || WordAt(tab, Tokenised(tab, text, ids).text, e)
  {
    hide Matches, Tokenised;
    var out := Tokenised(tab, text, ids).text;
    NothingLeftToMatch(tab, text, ids, CC, k, e - k);
    var u := out[k..][..e - k];
    assert forall i | 0 <= i < |u| :: u[i] == out[k + i];
    CardPatternMeans(tab, u);
    assert tab.word(out[k]) && tab.word(out[e - 1]);
  }

  // -------------------------------------------------------------------------
  // IPv4 addresses
  // -------------------------------------------------------------------------

  ghost predicate IsOctet(tab: Table, u: string) {
    1 <= |u| <= 3 && forall i | 0 <= i < |u| :: tab.digit(u[i])
  }

  ghost predicate IsAddress(tab: Table, u: string, a: string, b: string, c: string, d: string) {
    && u == (a + ".") + ((b + ".") + ((c + ".") + d))
    && IsOctet(tab, a) && IsOctet(tab, b) && IsOctet(tab, c) && IsOctet(tab, d)
  }

  const OCTET := Rep(Set(Digit), 1, AtMost(3))
  const DOTTED := Then(OCTET, Char('.'))

  lemma {:induction false} OctetMeans(tab: Table, u: string)
    ensures Matches(tab, OCTET, u) <==> IsOctet(tab, u)
  {
    hide MatchesRep;
    RepeatedClass(tab, Digit, 1, AtMost(3), u);
  }

  lemma {:induction false} DottedAccepted(tab: Table, a: string)
    requires IsOctet(tab, a)
    ensures Matches(tab, DOTTED, a + ".")
  {
    hide MatchesRep;
    OctetMeans(tab, a);
    assert Matches(tab, Char('.'), ".");
    Joined(tab, OCTET, Char('.'), a, ".");
  }

  lemma {:induction false} OneMore(tab: Table, r: Expr, lo: nat, hi: Limit, u: string, v: string)
    requires u != "" && hi.Positive() && Matches(tab, r, u) && MatchesRep(tab, r, Pred(lo), hi.Less(), v)
    ensures MatchesRep(tab, r, lo, hi, u + v)
  {
    hide Matches;
    assert (u + v)[..|u|] == u && (u + v)[|u|..] == v;
  }

  /** Every dotted quad of one to three digits is accepted by the IPv4 pattern. */
  lemma {:induction false} AddressAccepted(tab: Table, u: string, a: string, b: string, c: string, d: string)
    requires IsAddress(tab, u, a, b, c, d)
    ensures Matches(tab, IP.body, u)
  {
    hide Matches, MatchesRep;
    DottedAccepted(tab, a);
    DottedAccepted(tab, b);
    DottedAccepted(tab, c);
    OctetMeans(tab, d);
    NoMore(tab, DOTTED);
    assert (c + ".") + "" == c + ".";
    OneMore(tab, DOTTED, 1, AtMost(1), c + ".", "");
    OneMore(tab, DOTTED, 2, AtMost(2), b + ".", c + ".");
    OneMore(tab, DOTTED, 3, AtMost(3), a + ".", (b + ".") + (c + "."));
    var quad := (a + ".") + ((b + ".") + (c + "."));
    RepMeans(tab, DOTTED, 3, AtMost(3), quad);
    Joined(tab, Rep(DOTTED, 3, AtMost(3)), OCTET, quad, d);
    assert quad + d == u;
  }

  lemma {:induction false} NoMore(tab: Table, r: Expr)
    ensures MatchesRep(tab, r, 0, AtMost(0), "")
  {
  }

  lemma {:induction false} RepMeans(tab: Table, r: Expr, lo: nat, hi: Limit, u: string)
    requires MatchesRep(tab, r, lo, hi, u)
    ensures Matches(tab, Rep(r, lo, hi), u)
  {
    hide MatchesRep;
  }

  lemma {:induction false} DottedParts(tab: Table, u: string) returns (a: string)
    requires Matches(tab, DOTTED, u)
    ensures IsOctet(tab, a) && u == a + "."
  {
    hide Matches, MatchesRep;
    var dot;
    a, dot := Parted(tab, OCTET, Char('.'), u);
    OneCharMatch(tab, '.', dot);
    OctetMeans(tab, a);
  }

  lemma {:induction false} FirstOfRep(tab: Table, r: Expr, n: nat, w: string) returns (u: string, v: string)
    requires n > 0 && MatchesRep(tab, r, n, AtMost(n), w)
    ensures w == u + v && Matches(tab, r, u) && MatchesRep(tab, r, n - 1, AtMost(n - 1), v)
  {
    hide Matches;
    var k :| 0 < k <= |w| && Matches(tab, r, w[..k]) && MatchesRep(tab, r, Pred(n), AtMost(n).Less(), w[k..]);
    u, v := w[..k], w[k..];
  }

  lemma {:induction false} AddressExpr()
    ensures IP.body == Then(Rep(DOTTED, 3, AtMost(3)), OCTET)
  {
  }

  lemma {:induction false} RepUnfold(tab: Table, r: Expr, lo: nat, hi: Limit, u: string)
    requires Matches(tab, Rep(r, lo, hi), u)
    ensures MatchesRep(tab, r, lo, hi, u)
  {
    hide MatchesRep;
  }

  lemma {:induction false} AddressParts(tab: Table, u: string) returns (a: string, b: string, c: string, d: string)
    requires Matches(tab, IP.body, u)
    ensures IsAddress(tab, u, a, b, c, d)
  {
    hide Matches, MatchesRep, IsOctet, OCTET, DOTTED;
    AddressExpr();
    var quad;
    quad, d := Parted(tab, Rep(DOTTED, 3, AtMost(3)), OCTET, u);
    OctetMeans(tab, d);
    RepUnfold(tab, DOTTED, 3, AtMost(3), quad);
    var x, r1 := FirstOfRep(tab, DOTTED, 3, quad);
    var y, r2 := FirstOfRep(tab, DOTTED, 2, r1);
    var z, r3 := FirstOfRep(tab, DOTTED, 1, r2);
    NothingMore(tab, DOTTED, r3);
    a := DottedParts(tab, x);
    b := DottedParts(tab, y);
    c := DottedParts(tab, z);
    assert u == (x + (y + (z + ""))) + d;
  }

  lemma {:induction false} NothingMore(tab: Table, r: Expr, u: string)
    requires MatchesRep(tab, r, 0, AtMost(0), u)
    ensures u == ""
  {
  }

  /** The address pattern accepts exactly the dotted quads of one to three digits each. */
  lemma {:induction false} AddressPatternMeans(tab: Table, u: string)
    ensures Matches(tab, IP.body, u) <==> exists a, b, c, d :: IsAddress(tab, u, a, b, c, d)
  {
    hide Matches, IsAddress;
    if Matches(tab, IP.body, u) {
      var a, b, c, d := AddressParts(tab, u);
    }
    if a, b, c, d :| IsAddress(tab, u, a, b, c, d) {
      AddressAccepted(tab, u, a, b, c, d);
    }
  }

  /** Every dotted quad left in the tokenised text touches a word character. */
  lemma {:induction false} NoAddressLeft(
    tab: Table, text: string, ids: nat -> Id, k: nat, e: nat, a: string, b: string, c: string, d: string)
    requires k <= e <= |Tokenised(tab, text, ids).text|
    requires IsAddress(tab, Tokenised(tab, text, ids).text[k..e], a, b, c, d)
    ensures (k > 0 && tab.word(Tokenised(tab, text, ids).text[k - 1])) || WordAt(tab, Tokenised(tab, text, ids).text, e)
  {
    hide Matches, Tokenised;
    var out := Tokenised(tab, text, ids).text;
    NothingLeftToMatch(tab, text, ids, IP, k, e - k);
    assert out[k..][..e - k] == out[k..e];
    AddressAccepted(tab, out[k..e], a, b, c, d);
    AddressEdges(tab, out[k..e], a, b, c, d);
    assert out[k..e][0] == out[k] && out[k..e][e - k - 1] == out[e - 1];
  }

  lemma {:induction false} AddressEdges(tab: Table, u: string, a: string, b: string, c: string, d: string)
    requires IsAddress(tab, u, a, b, c, d)
    ensures u != "" && tab.word(u[0]) && tab.word(u[|u| - 1])
  {
    assert u[0] == a[0] && u[|u| - 1] == d[|d| - 1];
  }
}
