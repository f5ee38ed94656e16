/**
  Signed requests: the timestamp window, the nonce table and its cleanup.

  Time runs in database ticks. The orchestrator reads its clock in whole milliseconds, rounded down, while
  the table stores and compares full ticks; a request is checked first and inserted some ticks later.
*/
module Replay {
  import opened Wrappers

  // -------------------------------------------------------------------------
  // The window check, in 64-bit arithmetic
  // -------------------------------------------------------------------------

  const TWO_63: int := 0x8000_0000_0000_0000
  const TWO_64: int := 0x1_0000_0000_0000_0000

  type I64 = x: int | -TWO_63 <= x < TWO_63

  /** What the release profile keeps of a result that does not fit. */
  function WrapI64(x: int): I64 {
    (x + TWO_63) % TWO_64 - TWO_63
  }

  function AbsI64(x: I64): I64 {
    if x < 0 then WrapI64(-(x as int)) else x
  }

  /** The request passes the clock-skew check. */
  predicate InWindow(window: nat, nowMs: I64, ts: I64) {
    AbsI64(WrapI64(nowMs - ts)) <= window
  }

  const CLOCK_END: int := 0x4000_0000_0000_0000

  /** The check is the window one expects, and one far-away timestamp whose distance overflows. */
  lemma {:induction false} InWindowExact(window: nat, nowMs: I64, ts: I64)
    requires 0 <= nowMs < CLOCK_END && window < CLOCK_END
    ensures InWindow(window, nowMs, ts) <==> -(window as int) <= nowMs - ts <= window || nowMs - ts == TWO_63
  {
    var d := nowMs - ts;
    if d < TWO_63 {
      assert (d + TWO_63) % TWO_64 == d + TWO_63;
    } else {
      assert (d + TWO_63) % TWO_64 == d + TWO_63 - TWO_64;
    }
  }

  // -------------------------------------------------------------------------
  // The system
  // -------------------------------------------------------------------------

  /**
    `perMs`: ticks in a millisecond; `window` and `lifetime` in milliseconds; `delay`: how many ticks may
    pass between a request's check and its insert.
  */
  datatype Config = Config(perMs: nat, window: nat, lifetime: nat, delay: nat)

  predicate Sensible(c: Config) {
    c.perMs > 0 && 2 * c.window * c.perMs + c.perMs + c.delay < CLOCK_END * c.perMs && c.window < CLOCK_END
  }

  /** A request whose signature has been verified over its timestamp and nonce. */
  datatype Request = Request(ts: I64, nonce: string)

  datatype Waiting = Waiting(request: Request, checked: nat)

  datatype Accepted = Accepted(request: Request, checked: nat, at: nat)

  datatype State = State(now: nat, nonces: map<string, nat>, waiting: seq<Waiting>, accepted: seq<Accepted>)

  datatype Step = Advance(ticks: nat) | Check(request: Request) | Insert(i: nat) | Cleanup

  const INIT := State(0, map[], [], [])

  function NowMs(c: Config, s: State): nat
    requires c.perMs > 0
  {
    s.now / c.perMs
  }

  predicate Enabled(c: Config, s: State, step: Step) {
    match step
    case Advance(d) =>
      && s.now + d < CLOCK_END * c.perMs
      && forall i | 0 <= i < |s.waiting| :: s.now + d <= s.waiting[i].checked + c.delay
    case Check(r) =>
      c.perMs > 0 && NowMs(c, s) < CLOCK_END && InWindow(c.window, NowMs(c, s), r.ts)
    case Insert(i) => i < |s.waiting|
    case Cleanup => true
  }

  function Apply(c: Config, s: State, step: Step): State
    requires Enabled(c, s, step)
  {
    match step
    case Advance(d) => s.(now := s.now + d)
    case Check(r) => s.(waiting := s.waiting + [Waiting(r, s.now)])
    case Insert(i) => InsertNonce(c, s.(waiting := s.waiting[..i] + s.waiting[i + 1..]), s.waiting[i])
    case Cleanup => s.(nonces := map n | n in s.nonces && !(s.nonces[n] < s.now) :: s.nonces[n])
  }

  /** INSERT ... ON CONFLICT DO NOTHING; a conflict rejects the request. */
  function InsertNonce(c: Config, s: State, w: Waiting): State {
    if w.request.nonce in s.nonces then s
    else
      s.(nonces := s.nonces[w.request.nonce := s.now + c.lifetime * c.perMs],
         accepted := s.accepted + [Accepted(w.request, w.checked, s.now)])
  }

  predicate IsRun(c: Config, s: State, steps: seq<Step>)
    decreases |steps|
  {
    steps == [] || (Enabled(c, s, steps[0]) && IsRun(c, Apply(c, s, steps[0]), steps[1..]))
  }

  function After(c: Config, s: State, steps: seq<Step>): State
    requires IsRun(c, s, steps)
    decreases |steps|
  {
    if steps == [] then s else After(c, Apply(c, s, steps[0]), steps[1..])
  }

  /** No timestamp and nonce pair has been accepted twice. */
  predicate NoReplay(s: State) {
    forall i, j | 0 <= i < j < |s.accepted| :: s.accepted[i].request != s.accepted[j].request
  }

  ghost predicate Safe(c: Config) {
    forall steps | IsRun(c, INIT, steps) :: NoReplay(After(c, INIT, steps))
  }

  /** The lifetime covers the whole window, the rounding of the millisecond clock and the longest delay. */
  predicate LongEnough(c: Config) {
    c.lifetime * c.perMs >= 2 * c.window * c.perMs + (c.perMs - 1) + c.delay
  }

  // -------------------------------------------------------------------------
  // Invariant
  // -------------------------------------------------------------------------

  /** A request with timestamp `ts` can only have been checked at `checked` if this holds. */
  predicate CheckedInWindow(c: Config, ts: I64, checked: nat)
    requires c.perMs > 0
  {
    var ms := checked / c.perMs;
    ms < CLOCK_END && (-(c.window as int) <= ms - ts <= c.window || ms - ts == TWO_63)
  }

  predicate WaitingInv(c: Config, s: State)
    requires c.perMs > 0
  {
    forall i | 0 <= i < |s.waiting| ::
      && s.waiting[i].checked <= s.now <= s.waiting[i].checked + c.delay
      && CheckedInWindow(c, s.waiting[i].request.ts, s.waiting[i].checked)
  }

  /** An accepted nonce is in the table until its lifetime is over. */
  predicate Held(c: Config, s: State, a: Accepted) {
    || s.now > a.at + c.lifetime * c.perMs
    || (a.request.nonce in s.nonces && s.nonces[a.request.nonce] >= a.at + c.lifetime * c.perMs)
  }

  predicate AcceptedInv(c: Config, s: State)
    requires c.perMs > 0
  {
    forall i | 0 <= i < |s.accepted| ::
      && s.accepted[i].checked <= s.accepted[i].at <= s.now
      && CheckedInWindow(c, s.accepted[i].request.ts, s.accepted[i].checked)
      && Held(c, s, s.accepted[i])
  }

  predicate Inv(c: Config, s: State)
    requires c.perMs > 0
  {
    WaitingInv(c, s) && AcceptedInv(c, s)
  }

  /** Two checks of one timestamp are at most a window and a rounded millisecond apart. */
  lemma {:induction false} ChecksAreClose(c: Config, ts: I64, first: nat, second: nat)
    requires c.perMs > 0 && CheckedInWindow(c, ts, first) && CheckedInWindow(c, ts, second) && c.window < CLOCK_END
    ensures second <= first + 2 * c.window * c.perMs + (c.perMs - 1)
  {
    var a, b := first / c.perMs, second / c.perMs;
    Rounding(first, c.perMs);
    Rounding(second, c.perMs);
    Scaled(b, a + 2 * c.window, c.perMs);
    Expand(a, 2 * c.window, c.perMs);
  }

  lemma {:induction false} Rounding(t: nat, r: nat)
    requires r > 0
    ensures (t / r) * r <= t <= (t / r) * r + (r - 1)
  {
  }

  lemma {:induction false} Expand(a: int, b: int, r: int)
    ensures (a + b) * r == a * r + b * r
  {
  }

  lemma {:induction false} Scaled(a: int, b: int, r: nat)
    requires a <= b
    ensures a * r <= b * r
  {
  }

  lemma {:induction false} StepKeepsInv(c: Config, s: State, step: Step)
    requires Sensible(c) && Inv(c, s) && Enabled(c, s, step)
    ensures Inv(c, Apply(c, s, step))
  {
    var t := Apply(c, s, step);
    match step
    case Check(r) =>
      InWindowExact(c.window, NowMs(c, s), r.ts);
    case Insert(i) =>
      InsertKeepsInv(c, s.(waiting := s.waiting[..i] + s.waiting[i + 1..]), s.waiting[i]);
    case Advance(_) =>
    case Cleanup =>
  }

  lemma {:induction false} InsertKeepsInv(c: Config, s: State, w: Waiting)
    requires c.perMs > 0 && Inv(c, s)
    requires w.checked <= s.now && CheckedInWindow(c, w.request.ts, w.checked)
    ensures Inv(c, InsertNonce(c, s, w))
  {
    var t := InsertNonce(c, s, w);
    forall k | 0 <= k < |t.accepted|
      ensures t.accepted[k].checked <= t.accepted[k].at <= t.now
      ensures CheckedInWindow(c, t.accepted[k].request.ts, t.accepted[k].checked)
      ensures Held(c, t, t.accepted[k])
    {
      if k < |s.accepted| {
        assert t.accepted[k] == s.accepted[k] && Held(c, s, s.accepted[k]);
      }
    }
  }

  lemma {:induction false} StepKeepsNoReplay(c: Config, s: State, step: Step)
    requires Sensible(c) && LongEnough(c) && Inv(c, s) && Enabled(c, s, step) && NoReplay(s)
    ensures NoReplay(Apply(c, s, step))
  {
    if step.Insert? {
      var w := s.waiting[step.i];
      if w.request.nonce !in s.nonces {
        forall k | 0 <= k < |s.accepted|
          ensures s.accepted[k].request != w.request
        {
          if s.accepted[k].request == w.request {
            ChecksAreClose(c, w.request.ts, s.accepted[k].checked, w.checked);
          }
        }
      }
    }
  }

  lemma {:induction false} RunKeepsNoReplay(c: Config, s: State, steps: seq<Step>)
    requires Sensible(c) && LongEnough(c) && Inv(c, s) && NoReplay(s) && IsRun(c, s, steps)
    ensures NoReplay(After(c, s, steps))
    decreases |steps|
  {
    if steps != [] {
      StepKeepsInv(c, s, steps[0]);
      StepKeepsNoReplay(c, s, steps[0]);
      RunKeepsNoReplay(c, Apply(c, s, steps[0]), steps[1..]);
    }
  }

  // -------------------------------------------------------------------------
  // Tightness
  // -------------------------------------------------------------------------

  /** A future-dated request, presented again at the last tick of its window and inserted after the longest delay. */
  function LateRepeat(c: Config): seq<Step>
    requires c.perMs > 0
  {
    var r := Repeated(c);
    [Check(r), Insert(0), Advance(LastTick(c)), Check(r), Advance(c.delay), Cleanup, Insert(0)]
  }

  function Repeated(c: Config): Request {
    Request(if c.window < TWO_63 then c.window else 0, "n")
  }

  function FirstTaken(c: Config, now: nat, waiting: seq<Waiting>): State {
    State(now, map["n" := c.lifetime * c.perMs], waiting, [Accepted(Repeated(c), 0, 0)])
  }

  function LastTick(c: Config): nat
    requires c.perMs > 0
  {
    2 * c.window * c.perMs + c.perMs - 1
  }

  lemma {:induction false} LateFirstHalf(c: Config)
    requires Sensible(c)
    ensures Enabled(c, INIT, Check(Repeated(c)))
    ensures var s1 := Apply(c, INIT, Check(Repeated(c)));
            Enabled(c, s1, Insert(0)) && Apply(c, s1, Insert(0)) == FirstTaken(c, 0, [])
    ensures Enabled(c, FirstTaken(c, 0, []), Advance(LastTick(c)))
    ensures Apply(c, FirstTaken(c, 0, []), Advance(LastTick(c))) == FirstTaken(c, LastTick(c), [])
  {
    InWindowExact(c.window, 0, Repeated(c).ts);
    assert NowMs(c, INIT) == 0;
    var s1 := Apply(c, INIT, Check(Repeated(c)));
    assert s1 == State(0, map[], [Waiting(Repeated(c), 0)], []);
    assert Apply(c, s1, Insert(0)).waiting == [];
  }

  lemma {:induction false} LateSecondHalf(c: Config)
    requires Sensible(c) && !LongEnough(c)
    ensures var s3 := FirstTaken(c, LastTick(c), []);
            var s4 := FirstTaken(c, LastTick(c), [Waiting(Repeated(c), LastTick(c))]);
            var s5 := FirstTaken(c, LastTick(c) + c.delay, [Waiting(Repeated(c), LastTick(c))]);
            && Enabled(c, s3, Check(Repeated(c))) && Apply(c, s3, Check(Repeated(c))) == s4
            && Enabled(c, s4, Advance(c.delay)) && Apply(c, s4, Advance(c.delay)) == s5
            && Enabled(c, s5, Cleanup) && Apply(c, s5, Cleanup) == s5.(nonces := map[])
  {
    LastMillisecond(2 * c.window, c.perMs);
    if 2 * c.window >= CLOCK_END { Scaled(CLOCK_END, 2 * c.window, c.perMs); }
    InWindowExact(c.window, 2 * c.window, Repeated(c).ts);
    var s5 := FirstTaken(c, LastTick(c) + c.delay, [Waiting(Repeated(c), LastTick(c))]);
    assert s5.nonces["n"] < s5.now;
  }

  lemma {:induction false} TooShortIsUnsafe(c: Config)
    requires Sensible(c) && !LongEnough(c)
    ensures IsRun(c, INIT, LateRepeat(c)) && !NoReplay(After(c, INIT, LateRepeat(c)))
  {
    LateFirstHalf(c);
    LateSecondHalf(c);
    var w := Waiting(Repeated(c), LastTick(c));
    var s5 := FirstTaken(c, LastTick(c) + c.delay, [w]);
    var s6 := s5.(nonces := map[]);
    var s7 := Apply(c, s6, Insert(0));
    assert s7.accepted == [Accepted(Repeated(c), 0, 0), Accepted(Repeated(c), LastTick(c), LastTick(c) + c.delay)];
    assert s7.accepted[0].request == s7.accepted[1].request;
    hide Apply;
    SevenSteps(c, INIT, LateRepeat(c), Apply(c, INIT, Check(Repeated(c))), FirstTaken(c, 0, []),
               FirstTaken(c, LastTick(c), []), FirstTaken(c, LastTick(c), [w]), s5, s6, s7);
  }

  lemma {:induction false} LastMillisecond(ms: nat, perMs: nat)
    requires perMs > 0
    ensures (ms * perMs + perMs - 1) / perMs == ms
  {
    var t := ms * perMs + perMs - 1;
    assert t == (t / perMs) * perMs + t % perMs;
    var q := t / perMs;
    if q < ms {
      Scaled(q + 1, ms, perMs);
    } else if q > ms {
      Scaled(ms + 1, q, perMs);
    }
  }

  lemma {:induction false} SevenSteps(
    c: Config, s: State, steps: seq<Step>, s1: State, s2: State, s3: State, s4: State, s5: State, s6: State, s7: State)
    requires |steps| == 7
    requires Enabled(c, s, steps[0]) && Apply(c, s, steps[0]) == s1
    requires Enabled(c, s1, steps[1]) && Apply(c, s1, steps[1]) == s2
    requires Enabled(c, s2, steps[2]) && Apply(c, s2, steps[2]) == s3
    requires Enabled(c, s3, steps[3]) && Apply(c, s3, steps[3]) == s4
    requires Enabled(c, s4, steps[4]) && Apply(c, s4, steps[4]) == s5
    requires Enabled(c, s5, steps[5]) && Apply(c, s5, steps[5]) == s6
    requires Enabled(c, s6, steps[6]) && Apply(c, s6, steps[6]) == s7
    ensures IsRun(c, s, steps) && After(c, s, steps) == s7
  {
    hide Enabled, Apply;
    OneStep(c, s6, steps[6..]);
    OneStep(c, s5, steps[5..]);
    OneStep(c, s4, steps[4..]);
    OneStep(c, s3, steps[3..]);
    OneStep(c, s2, steps[2..]);
    OneStep(c, s1, steps[1..]);
    assert steps[0..] == steps;
    OneStep(c, s, steps);
  }

  lemma {:induction false} OneStep(c: Config, s: State, steps: seq<Step>)
    requires steps != [] && Enabled(c, s, steps[0]) && IsRun(c, Apply(c, s, steps[0]), steps[1..])
    ensures IsRun(c, s, steps) && After(c, s, steps) == After(c, Apply(c, s, steps[0]), steps[1..])
  {
  }

  /**
    No replay, exactly: every interleaving of requests, clock ticks and cleanups is free of replays if and
    only if the lifetime covers twice the window, the rounding of the millisecond clock and the delay
    between check and insert.
  */
  lemma {:induction false} SafeExactly(c: Config)
    requires Sensible(c)
    ensures Safe(c) <==> LongEnough(c)
  {
    if LongEnough(c) {
      forall steps | IsRun(c, INIT, steps)
        ensures NoReplay(After(c, INIT, steps))
      {
        RunKeepsNoReplay(c, INIT, steps);
      }
    } else {
      TooShortIsUnsafe(c);
    }
  }

  const MAX_CLOCK_SKEW_MS: nat := 30_000
  const NONCE_LIFETIME_MS: nat := 60_000

  /**
    With the source's constants, 60 s is exactly enough for the 30 s window when the table also keeps whole
    milliseconds and check and insert share an instant; a finer database clock or any delay is too much.
  */
  lemma {:induction false} SourceConstants(perMs: nat, delay: nat)
    requires 0 < perMs <= 1_000_000 && delay < 1_000_000_000
    ensures Safe(Config(perMs, 30_000, 60_000, delay)) <==> perMs == 1 && delay == 0
    ensures !Safe(Config(1, 30_000, 59_999, 0))
  {
    var c := Config(perMs, MAX_CLOCK_SKEW_MS, NONCE_LIFETIME_MS, delay);
    assert 2 * c.window * c.perMs == c.lifetime * c.perMs;
    assert Sensible(c) by {
      Scaled(2_000_000_000, CLOCK_END - 60_001, perMs);
      assert 2 * c.window * c.perMs + c.perMs == 60_001 * perMs;
      assert (CLOCK_END - 60_001) * perMs == CLOCK_END * perMs - 60_001 * perMs;
    }
    SafeExactly(c);
    SafeExactly(Config(1, MAX_CLOCK_SKEW_MS, NONCE_LIFETIME_MS - 1, 0));
  }

  lemma {:induction false} RunKeepsInv(c: Config, s: State, steps: seq<Step>)
    requires Sensible(c) && Inv(c, s) && IsRun(c, s, steps)
    ensures Inv(c, After(c, s, steps))
    decreases |steps|
  {
    if steps != [] {
      StepKeepsInv(c, s, steps[0]);
      RunKeepsInv(c, Apply(c, s, steps[0]), steps[1..]);
    }
  }

  /**
    A nonce is refused for its whole lifetime, whatever the timestamp: in particular a request that passes
    through the check a second time, as under the nested `/admin` layer, is refused there.
  */
  lemma {:induction false} NonceHeldForLifetime(c: Config, steps: seq<Step>, k: nat, i: nat)
    requires Sensible(c) && IsRun(c, INIT, steps)
    requires var s := After(c, INIT, steps);
             && k < |s.accepted| && i < |s.waiting|
             && s.waiting[i].request.nonce == s.accepted[k].request.nonce
             && s.now <= s.accepted[k].at + c.lifetime * c.perMs
    ensures var s := After(c, INIT, steps);
            Apply(c, s, Insert(i)).accepted == s.accepted && Apply(c, s, Insert(i)).nonces == s.nonces
  {
    RunKeepsInv(c, INIT, steps);
    var s := After(c, INIT, steps);
    assert Held(c, s, s.accepted[k]);
  }

  // -------------------------------------------------------------------------
  // The program
  // -------------------------------------------------------------------------

  /** The signed headers; `timestamp` holds `None` when the header is there but is not a 64-bit integer. */
  datatype Headers = Headers(
    pubkey: Option<string>, timestamp: Option<Option<I64>>, nonce: Option<string>, signature: Option<string>)

  datatype AuthError =
    | MissingPubkey | MissingTimestamp | MissingNonce | MissingSignature
    | BadTimestamp | Expired | BadNonce | BadSignature | NonceUsed | AdminKeyMismatch

  type Byte = n: nat | n < 256

  function HexValue(c: char): (v: Option<nat>)
    ensures v.Some? ==> v.value < 16
  {
    if '0' <= c <= '9' then Some(c as nat - '0' as nat)
    else if 'a' <= c <= 'f' then Some(c as nat - 'a' as nat + 10)
    else if 'A' <= c <= 'F' then Some(c as nat - 'A' as nat + 10)
    else None
  }

  /** Two hex digits of either case for each byte. */
  function HexDecode(s: string): Option<seq<Byte>> {
    if s == "" then Some([])
    else if |s| == 1 || HexValue(s[0]).None? || HexValue(s[1]).None? then None
    else
      match HexDecode(s[2..])
      case None => None
      case Some(rest) => Some([16 * HexValue(s[0]).value + HexValue(s[1]).value] + rest)
  }

  /** The worker's encoding: lower case, the high half of each byte first. */
  function HexEncode(bytes: seq<Byte>): string {
    if bytes == [] then ""
    else ["0123456789abcdef"[bytes[0] / 16], "0123456789abcdef"[bytes[0] % 16]] + HexEncode(bytes[1..])
  }

  lemma {:induction false} DigitValue(n: nat)
    requires n < 16
    ensures HexValue("0123456789abcdef"[n]) == Some(n)
  {
    if n == 0 {} else if n == 1 {} else if n == 2 {} else if n == 3 {} else if n == 4 {} else if n == 5 {}
    else if n == 6 {} else if n == 7 {} else if n == 8 {} else if n == 9 {} else if n == 10 {} else if n == 11 {}
    else if n == 12 {} else if n == 13 {} else if n == 14 {} else {}
  }

  lemma {:induction false} HexRoundTrip(bytes: seq<Byte>)
    ensures HexDecode(HexEncode(bytes)) == Some(bytes) && |HexEncode(bytes)| == 2 * |bytes|
  {
    if bytes != [] {
      var b, s := bytes[0], HexEncode(bytes);
      HexRoundTrip(bytes[1..]);
      DigitValue(b / 16);
      DigitValue(b % 16);
      assert 16 * (b / 16) + b % 16 == b;
      assert s[0] == "0123456789abcdef"[b / 16] && s[1] == "0123456789abcdef"[b % 16];
      assert s[2..] == HexEncode(bytes[1..]);
      assert [b] + bytes[1..] == bytes;
    }
  }

  lemma {:induction false} DecodedLength(s: string)
    ensures HexDecode(s).Some? ==> |s| == 2 * |HexDecode(s).value|
    decreases |s|
  {
    if |s| > 1 { DecodedLength(s[2..]); }
  }

  /** Decoding asks for an even number of hex digits, of either case. */
  lemma {:induction false} DecodesExactly(s: string)
    ensures HexDecode(s).Some? <==> |s| % 2 == 0 && AllIn(s, "0123456789abcdefABCDEF")
  {
    forall c
      ensures HexValue(c).Some? <==> c in "0123456789abcdefABCDEF"
    {
      DigitExactly(c);
    }
    DecodesPairs(s, "0123456789abcdefABCDEF");
  }

  lemma {:induction false} DecodesPairs(s: string, digits: string)
    requires forall c :: HexValue(c).Some? <==> c in digits
    ensures HexDecode(s).Some? <==> |s| % 2 == 0 && AllIn(s, digits)
    decreases |s|
  {
    hide HexValue;
    if |s| > 1 {
      DecodesPairs(s[2..], digits);
      AllInPair(s, digits);
      HexDecodePair(s);
    }
  }

  predicate AllIn(s: string, allowed: string) {
    forall i | 0 <= i < |s| :: s[i] in allowed
  }

  lemma {:induction false} AllInPair(s: string, allowed: string)
    requires |s| > 1
    ensures AllIn(s, allowed) <==> s[0] in allowed && s[1] in allowed && AllIn(s[2..], allowed)
  {
    if AllIn(s[2..], allowed) {
      assert forall i | 2 <= i < |s| :: s[i] == s[2..][i - 2];
    }
  }

  lemma {:induction false} HexDecodePair(s: string)
    requires |s| > 1
    ensures HexDecode(s).Some? <==> HexValue(s[0]).Some? && HexValue(s[1]).Some? && HexDecode(s[2..]).Some?
  {
  }

  lemma {:induction false} DigitExactly(c: char)
    ensures HexValue(c).Some? <==> c in "0123456789abcdefABCDEF"
  {
    var digits := "0123456789abcdefABCDEF";
    if HexValue(c).Some? {
      var v := HexValue(c).value;
      assert c == digits[v] || c == digits[v + 6];
    }
  }

  /** The nonces accepted are those that decode to 32 bytes, and what a worker sends for any 32 bytes is one. */
  lemma {:induction false} NonceFormatMeans(n: string, bytes: seq<Byte>)
    ensures NonceFormat(n) <==> HexDecode(n).Some? && |HexDecode(n).value| == 32
    ensures |bytes| == 32 ==> NonceFormat(HexEncode(bytes))
  {
    DecodedLength(n);
    HexRoundTrip(bytes);
  }

  /** What the check of the nonce header asks: 64 characters that decode as hex. */
  predicate NonceFormat(n: string) {
    |n| == 64 && HexDecode(n).Some?
  }

  predicate HasAllHeaders(h: Headers) {
    h.pubkey.Some? && h.timestamp.Some? && h.nonce.Some? && h.signature.Some?
  }

  predicate InTime(window: nat, h: Headers, nowMs: I64) {
    HasAllHeaders(h) && h.timestamp.value.Some? && InWindow(window, nowMs, h.timestamp.value.value)
  }

  /** Everything that must hold before the nonce table is consulted. */
  predicate Presentable(window: nat, h: Headers, signed: bool, nowMs: I64) {
    InTime(window, h, nowMs) && NonceFormat(h.nonce.value) && signed
  }

  /** What a worker sends, signed and in time, gets past everything before the nonce table. */
  lemma {:induction false} GenuinePresentable(
    window: nat, pubkey: string, ts: I64, bytes: seq<Byte>, sig: string, now: I64)
    requires |bytes| == 32 && InWindow(window, now, ts)
    ensures Presentable(window, Headers(Some(pubkey), Some(Some(ts)), Some(HexEncode(bytes)), Some(sig)), true, now)
  {
    NonceFormatMeans("", bytes);
  }

  function RequestOf(h: Headers): Request
    requires HasAllHeaders(h) && h.timestamp.value.Some?
  {
    Request(h.timestamp.value.value, h.nonce.value)
  }

  // -------------------------------------------------------------------------
  // Extending a run
  // -------------------------------------------------------------------------

  lemma {:induction false} RunSnoc(c: Config, s: State, steps: seq<Step>, step: Step)
    requires IsRun(c, s, steps) && Enabled(c, After(c, s, steps), step)
    ensures IsRun(c, s, steps + [step]) && After(c, s, steps + [step]) == Apply(c, After(c, s, steps), step)
    decreases |steps|
  {
    hide Enabled, Apply;
    var all := steps + [step];
    if steps == [] {
      assert all == [step] && all[1..] == [];
    } else {
      assert all[0] == steps[0] && all[1..] == steps[1..] + [step];
      RunSnoc(c, Apply(c, s, steps[0]), steps[1..], step);
    }
  }

  lemma {:induction false} MillisecondInRange(perMs: nat, now: nat)
    requires perMs > 0 && now < CLOCK_END * perMs
    ensures now / perMs < CLOCK_END
  {
    Rounding(now, perMs);
    if now / perMs >= CLOCK_END { Scaled(CLOCK_END, now / perMs, perMs); }
  }

  lemma {:induction false} NoReplayAfter(c: Config, steps: seq<Step>)
    requires Sensible(c) && IsRun(c, INIT, steps)
    ensures LongEnough(c) ==> NoReplay(After(c, INIT, steps))
  {
    if LongEnough(c) { RunKeepsNoReplay(c, INIT, steps); }
  }

  /** The request middleware over its nonce table, with the database clock and everything it has accepted. */
  class NonceStore {
    const config: Config
    var now: nat
    var nonces: map<string, nat>
    ghost var accepted: seq<Accepted>
    ghost var history: seq<Step>

    ghost function View(): State
      reads this
    {
      State(now, nonces, [], accepted)
    }

    /** The store has been through a run of the system above. */
    ghost predicate Valid()
      reads this
    {
      && Sensible(config) && now < CLOCK_END * config.perMs
      && IsRun(config, INIT, history) && After(config, INIT, history) == View()
    }

    constructor (c: Config)
      requires Sensible(c)
      ensures Valid() && config == c && View() == INIT
    {
      config := c;
      now, nonces, accepted, history := 0, map[], [], [];
    }

    /** If the lifetime is long enough, nothing has been accepted twice, whatever was called before. */
    lemma {:induction false} NeverReplayed()
      requires Valid() && LongEnough(config)
      ensures NoReplay(View())
    {
      NoReplayAfter(config, history);
    }

    method Tick(ticks: nat)
      requires Valid() && now + ticks < CLOCK_END * config.perMs
      modifies this`now, this`history
      ensures Valid() && View() == Apply(config, old(View()), Advance(ticks))
    {
      RunSnoc(config, INIT, history, Advance(ticks));
      history := history + [Advance(ticks)];
      now := now + ticks;
    }

    /**
      `signed` is the verdict on the signature; `elapsed` is how long the request takes from its window check
      to its insert. Each error is given exactly in its case.
    */
    method ValidateAndConsume(h: Headers, signed: bool, elapsed: nat) returns (r: Result<(), AuthError>)
      requires Valid() && elapsed <= config.delay && now + elapsed < CLOCK_END * config.perMs
      modifies this
      ensures Valid() && old(now) / config.perMs < CLOCK_END
      ensures r.Ok? <==> Presentable(config.window, h, signed, old(now) / config.perMs) && h.nonce.value !in old(nonces)
      ensures r == Err(MissingPubkey) <==> h.pubkey.None?
      ensures r == Err(MissingTimestamp) <==> h.pubkey.Some? && h.timestamp.None?
      ensures r == Err(MissingNonce) <==> h.pubkey.Some? && h.timestamp.Some? && h.nonce.None?
      ensures r == Err(MissingSignature) <==> h.pubkey.Some? && h.timestamp.Some? && h.nonce.Some? && h.signature.None?
      ensures r == Err(BadTimestamp) <==> HasAllHeaders(h) && h.timestamp.value.None?
      ensures r == Err(Expired) <==>
                HasAllHeaders(h) && h.timestamp.value.Some? && !InTime(config.window, h, old(now) / config.perMs)
      ensures r == Err(BadNonce) <==>
                && InTime(config.window, h, old(now) / config.perMs)
                && !(HexDecode(h.nonce.value).Some? && |HexDecode(h.nonce.value).value| == 32)
      ensures r == Err(BadSignature) <==>
                InTime(config.window, h, old(now) / config.perMs) && NonceFormat(h.nonce.value) && !signed
      ensures r == Err(NonceUsed) <==>
                Presentable(config.window, h, signed, old(now) / config.perMs) && h.nonce.value in old(nonces)
      ensures !Presentable(config.window, h, signed, old(now) / config.perMs) ==> View() == old(View())
      ensures Presentable(config.window, h, signed, old(now) / config.perMs) ==>
                var w := Waiting(RequestOf(h), old(now));
                && history == old(history) + [Check(RequestOf(h)), Advance(elapsed), Insert(0)]
                && View() == InsertNonce(config, old(View()).(now := old(now) + elapsed), w)
    {
      MillisecondInRange(config.perMs, now);
      if h.pubkey.None? { return Err(MissingPubkey); }
      if h.timestamp.None? { return Err(MissingTimestamp); }
      if h.nonce.None? { return Err(MissingNonce); }
      if h.signature.None? { return Err(MissingSignature); }
      if h.timestamp.value.None? { return Err(BadTimestamp); }
      var ts := h.timestamp.value.value;
      if !InWindow(config.window, now / config.perMs, ts) { return Err(Expired); }
      var nonce := h.nonce.value;
      NonceFormatMeans(nonce, []);
      if !NonceFormat(nonce) { return Err(BadNonce); }
      if !signed { return Err(BadSignature); }
      ghost var request, checked := Request(ts, nonce), now;
      history := ConsumeRun(config, history, View(), request, elapsed);
      now := now + elapsed;
      if nonce in nonces { return Err(NonceUsed); }
      nonces := nonces[nonce := now + config.lifetime * config.perMs];
      accepted := accepted + [Accepted(request, checked, now)];
      return Ok(());
    }

    /** Strictly expired rows go; the others stay as they are. */
    method CleanupExpired()
      requires Valid()
      modifies this`nonces, this`history
      ensures Valid() && View() == Apply(config, old(View()), Cleanup)
      ensures forall n :: n in nonces <==> n in old(nonces) && old(nonces)[n] >= now
      ensures forall n | n in nonces :: nonces[n] == old(nonces)[n]
    {
      RunSnoc(config, INIT, history, Cleanup);
      history := history + [Cleanup];
      nonces := map n | n in nonces && !(nonces[n] < now) :: nonces[n];
    }

    /**
      A request to `/admin`: the outer layer validates and consumes it, then the admin layer compares the key
      and validates and consumes the same headers again. No such request is ever let through.
    */
    method AdminRequest(h: Headers, signed: bool, adminKey: string, first: nat, second: nat)
        returns (r: Result<(), AuthError>)
      requires Valid() && first <= config.delay && second <= config.delay
          && now + first + second < CLOCK_END * config.perMs
      modifies this
      ensures Valid() && r.Err?
      ensures r == Err(AdminKeyMismatch) <==>
                && Presentable(config.window, h, signed, old(now) / config.perMs) && h.nonce.value !in old(nonces)
                && h.pubkey.value != adminKey
    {
      if h.nonce.Some? { NonceFormatMeans(h.nonce.value, []); }
      r := ValidateAndConsume(h, signed, first);
      if r.Err? { return r; }
      if h.pubkey.value != adminKey { return Err(AdminKeyMismatch); }
      r := ValidateAndConsume(h, signed, second);
    }
  }

  /** Check, some ticks, insert: what one presentable request adds to a run that left nobody waiting. */
  lemma {:induction false} ConsumeRun(c: Config, history: seq<Step>, s: State, request: Request, elapsed: nat)
    returns (longer: seq<Step>)
    requires Sensible(c) && IsRun(c, INIT, history) && After(c, INIT, history) == s && s.waiting == []
    requires s.now < CLOCK_END * c.perMs && s.now / c.perMs < CLOCK_END
        && InWindow(c.window, s.now / c.perMs, request.ts)
    requires elapsed <= c.delay && s.now + elapsed < CLOCK_END * c.perMs
    ensures longer == history + [Check(request), Advance(elapsed), Insert(0)] && IsRun(c, INIT, longer)
    ensures After(c, INIT, longer) == InsertNonce(c, s.(now := s.now + elapsed), Waiting(request, s.now))
  {
    RunSnoc(c, INIT, history, Check(request));
    var h1 := history + [Check(request)];
    var s1 := s.(waiting := [Waiting(request, s.now)]);
    assert After(c, INIT, h1) == s1;
    RunSnoc(c, INIT, h1, Advance(elapsed));
    var h2 := h1 + [Advance(elapsed)];
    var s2 := s1.(now := s.now + elapsed);
    assert After(c, INIT, h2) == s2;
    RunSnoc(c, INIT, h2, Insert(0));
    longer := h2 + [Insert(0)];
    assert s2.waiting[..0] + s2.waiting[1..] == [];
    assert s2.(waiting := []) == s.(now := s.now + elapsed);
    assert longer == history + [Check(request), Advance(elapsed), Insert(0)];
  }
}
