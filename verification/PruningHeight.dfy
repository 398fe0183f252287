/** Finding the earliest block a node still has, from the error a pruned node returns. */
module PruningHeight {
  import opened Decimals
  import opened Rpc
  import opened Wrappers

  const MARKER := "lowest height is "

  /** `strings.ToLower`, character by character; only its effect on ASCII matters. */
  ghost predicate LowersAscii(lower: char -> char) {
    forall c: char :: c < '\U{80}' ==> lower(c) == if 'A' <= c <= 'Z' then (c as int + 32) as char else c
  }

  function Lowered(s: string, lower: char -> char): string {
    seq(|s|, i requires 0 <= i < |s| => lower(s[i]))
  }

  /** The pattern, a marker followed by at least one digit, matches at `i`. */
  predicate MatchesAt(s: string, i: nat) {
    i + |MARKER| < |s| && s[i..i + |MARKER|] == MARKER && IsDigit(s[i + |MARKER|])
  }

  /** The longest run of digits from `i`. */
  function DigitRun(s: string, i: nat): (d: string)
    requires i <= |s|
    ensures AllDigits(d) && i + |d| <= |s| && d == s[i..i + |d|]
    ensures i + |d| < |s| ==> !IsDigit(s[i + |d|])
    decreases |s| - i
  {
    if i < |s| && IsDigit(s[i]) then [s[i]] + DigitRun(s, i + 1) else []
  }

  /** The digits captured by the leftmost match at or after `i`. */
  function LeftmostCapture(s: string, i: nat): Option<string>
    requires i <= |s|
    decreases |s| - i
  {
    if MatchesAt(s, i) then Some(DigitRun(s, i + |MARKER|))
    else if i == |s| then None
    else LeftmostCapture(s, i + 1)
  }

  function ParseLowestHeight(message: string, lower: char -> char): (h: nat)
    ensures h < TWO_TO_THE_64
  {
    match LeftmostCapture(Lowered(message, lower), 0)
    case None => 0
    case Some(digits) =>
      match ParseUint64(digits)
      case None => 0
      case Some(h) => h
  }

  /** A run of digits followed by something else, or nothing, is captured whole. */
  lemma DigitRunIsWhole(s: string, i: nat, d: string)
    requires i + |d| <= |s| && s[i..i + |d|] == d && AllDigits(d)
    requires i + |d| < |s| ==> !IsDigit(s[i + |d|])
    ensures DigitRun(s, i) == d
  {
  }

  function LoweredText(prefix: string, n: nat, suffix: string, lower: char -> char): string {
    Lowered(prefix, lower) + MARKER + Decimal(n) + Lowered(suffix, lower)
  }

  /**
   Every height survives the round trip through a pruned node's message, whatever surrounds it, as
   long as no match begins before it; beyond 64 bits the result is 0.
   */
  lemma HeightRoundTrip(prefix: string, n: nat, suffix: string, lower: char -> char)
    requires LowersAscii(lower)
    requires forall i :: 0 <= i < |prefix| ==> !MatchesAt(LoweredText(prefix, n, suffix, lower), i)
    requires suffix != [] ==> !IsDigit(lower(suffix[0]))
    ensures ParseLowestHeight(prefix + MARKER + Decimal(n) + suffix, lower) == if n < TWO_TO_THE_64 then n else 0
  {
    LoweredMessage(prefix, Decimal(n), suffix, lower);
    assert LoweredText(prefix, n, suffix, lower)
        == Lowered(prefix, lower) + MARKER + Decimal(n) + Lowered(suffix, lower);
    DecimalIsCaptured(Lowered(prefix, lower), n, Lowered(suffix, lower));
    ParseOfDecimal(n);
  }

  lemma DecimalIsCaptured(prefix: string, n: nat, suffix: string)
    requires forall i :: 0 <= i < |prefix| ==> !MatchesAt(prefix + MARKER + Decimal(n) + suffix, i)
    requires suffix != [] ==> !IsDigit(suffix[0])
    ensures LeftmostCapture(prefix + MARKER + Decimal(n) + suffix, 0) == Some(Decimal(n))
  {
    CaptureInText(prefix, MARKER, Decimal(n), suffix);
    LeftmostIsCaptured(prefix + MARKER + Decimal(n) + suffix, 0, |prefix|);
  }

  lemma LoweredMessage(prefix: string, digits: string, suffix: string, lower: char -> char)
    requires LowersAscii(lower) && AllDigits(digits)
    ensures Lowered(prefix + MARKER + digits + suffix, lower)
         == Lowered(prefix, lower) + MARKER + digits + Lowered(suffix, lower)
  {
  }

  lemma CaptureInText(prefix: string, marker: string, digits: string, suffix: string)
    requires marker == MARKER
    requires digits != [] && AllDigits(digits) && (suffix != [] ==> !IsDigit(suffix[0]))
    ensures MatchesAt(prefix + marker + digits + suffix, |prefix|)
    ensures DigitRun(prefix + marker + digits + suffix, |prefix| + |marker|) == digits
  {
    var text := prefix + marker + digits + suffix;
    SlicesOfConcat(prefix, marker, digits, suffix);
    DigitRunIsWhole(text, |prefix| + |marker|, digits);
  }

  lemma SlicesOfConcat(a: string, b: string, c: string, d: string)
    requires c != []
    ensures var s := a + b + c + d;
            && s[|a|..|a| + |b|] == b
            && s[|a| + |b|..|a| + |b| + |c|] == c
            && s[|a| + |b|] == c[0]
            && (d != [] ==> s[|a| + |b| + |c|] == d[0])
  {
  }

  lemma {:induction false} LeftmostIsCaptured(s: string, i: nat, at: nat)
    requires i <= at && MatchesAt(s, at) && forall k :: i <= k < at ==> !MatchesAt(s, k)
    ensures LeftmostCapture(s, i) == Some(DigitRun(s, at + |MARKER|))
    decreases at - i
  {
    if i < at {
      LeftmostIsCaptured(s, i + 1, at);
    }
  }

  lemma {:induction false} NothingCaptured(s: string, i: nat)
    requires i <= |s| && forall k :: i <= k <= |s| ==> !MatchesAt(s, k)
    ensures LeftmostCapture(s, i) == None
    decreases |s| - i
  {
    if i < |s| {
      NothingCaptured(s, i + 1);
    }
  }

  /** A message whose lowered text has no marker says nothing about a height. */
  lemma NoMarkerNoHeight(message: string, lower: char -> char)
    requires forall i :: 0 <= i <= |message| ==> !MatchesAt(Lowered(message, lower), i)
    ensures ParseLowestHeight(message, lower) == 0
  {
    NothingCaptured(Lowered(message, lower), 0);
  }

  /** The height a node's lowest block is found at, the first probe being call number `calls`. */
  function EarliestHeight(lookup: Option<string>, probe: nat -> Result<string, string>, calls: nat, maxRetries: nat,
    lower: char -> char): Option<nat>
  {
    match CallOutcome(lookup, probe, calls, 1, "")
    case Success(_) => Some(1)
    case Failure(e) =>
      if ParseLowestHeight(e, lower) > 0 then Some(ParseLowestHeight(e, lower))
      else
        match CallOutcome(lookup, probe, calls + CallAttempts(lookup, probe, calls, 1), maxRetries, "")
        case Success(_) => Some(1)
        case Failure(_) => None
  }

  /** How many probes that takes. */
  function EarliestCalls(lookup: Option<string>, probe: nat -> Result<string, string>, calls: nat, maxRetries: nat,
    lower: char -> char): nat
  {
    var first := CallAttempts(lookup, probe, calls, 1);
    match CallOutcome(lookup, probe, calls, 1, "")
    case Success(_) => first
    case Failure(e) =>
      if ParseLowestHeight(e, lower) > 0 then first
      else first + CallAttempts(lookup, probe, calls + first, maxRetries)
  }

  /**
   A node that has block 1 starts there. A pruned one starts where its message says, with the prefix
   the call puts before it. Otherwise block 1 is asked for again, up to the limit, and a limit of 0
   passes for an answer.
   */
  lemma EarliestHeightMeans(probe: nat -> Result<string, string>, calls: nat, maxRetries: nat, lower: char -> char)
    ensures var h := EarliestHeight(None, probe, calls, maxRetries, lower);
            match probe(calls)
            case Success(_) => h == Some(1)
            case Failure(e) =>
              var named := ParseLowestHeight("Failed after 1 retries: " + e, lower);
              var answered := maxRetries == 0 || exists t :: calls < t <= calls + maxRetries && probe(t).Success?;
              h == if named > 0 then Some(named) else if answered then Some(1) else None
  {
    CallSucceedsIff(None, probe, calls + 1, maxRetries, "");
    if probe(calls).Failure? {
      WrappedOnce(probe(calls).error);
    }
  }

  lemma WrappedOnce(message: string)
    ensures Wrapped(1, message) == "Failed after 1 retries: " + message
  {
    assert "Failed after " + Decimal(1) + " retries: " == "Failed after 1 retries: ";
  }

  /** Without the method there is no probe; only the error can name a height. */
  lemma NoMethodNoProbe(message: string, probe: nat -> Result<string, string>, calls: nat, maxRetries: nat,
    lower: char -> char)
    ensures var named := ParseLowestHeight(message, lower);
            && EarliestHeight(Some(message), probe, calls, maxRetries, lower)
               == (if named > 0 then Some(named) else None)
            && EarliestCalls(Some(message), probe, calls, maxRetries, lower) == 0
  {
  }

  /** The words and a digit stand at `i`. */
  predicate NamesHeight(text: string, i: nat) {
    i + 17 < |text| && text[i..i + 17] == "lowest height is " && '0' <= text[i + 17] <= '9'
  }

  lemma MatchIsSpelledOut(text: string, i: nat)
    ensures MatchesAt(text, i) <==> NamesHeight(text, i)
  {
  }

  /** The text a pruned node's error comes to, in lower case. */
  function PrunedMessage(prefix: string, n: nat, suffix: string, lower: char -> char): string {
    Lowered("Failed after 1 retries: " + (prefix + "lowest height is " + Decimal(n) + suffix), lower)
  }

  /** A pruned node is found at the height it names, whatever else it says, if it names no other before. */
  lemma PrunedNodeIsFound(prefix: string, n: nat, suffix: string, probe: nat -> Result<string, string>, calls: nat,
    maxRetries: nat, lower: char -> char)
    requires probe(calls) == Failure(prefix + "lowest height is " + Decimal(n) + suffix)
    requires 0 < n < 0x1_0000_0000_0000_0000 && LowersAscii(lower)
    requires suffix != [] ==> !('0' <= lower(suffix[0]) <= '9')
    requires forall i :: 0 <= i < 24 + |prefix| ==> !NamesHeight(PrunedMessage(prefix, n, suffix, lower), i)
    ensures EarliestHeight(None, probe, calls, maxRetries, lower) == Some(n)
    ensures EarliestCalls(None, probe, calls, maxRetries, lower) == 1
  {
    var before := "Failed after 1 retries: " + prefix;
    var message := prefix + "lowest height is " + Decimal(n) + suffix;
    WrappedOnce(message);
    assert before + MARKER + Decimal(n) + suffix == "Failed after 1 retries: " + message;
    LoweredMessage(before, Decimal(n), suffix, lower);
    var text := LoweredText(before, n, suffix, lower);
    assert text == PrunedMessage(prefix, n, suffix, lower);
    forall i | 0 <= i < |before|
      ensures !MatchesAt(text, i)
    {
      MatchIsSpelledOut(text, i);
    }
    HeightRoundTrip(before, n, suffix, lower);
  }

  /** Height 0 is never found; a node that has block 1 starts there; a pruned one where its message says. */
  lemma EarliestHeightIsPositive(probe: nat -> Result<string, string>, calls: nat, maxRetries: nat, lower: char -> char)
    ensures var h := EarliestHeight(None, probe, calls, maxRetries, lower);
            && (h.Some? ==> 1 <= h.value < TWO_TO_THE_64)
            && (probe(calls).Success? ==> h == Some(1))
            && (probe(calls).Failure? && ParseLowestHeight(Wrapped(1, probe(calls).error), lower) > 0 ==>
                  h == Some(ParseLowestHeight(Wrapped(1, probe(calls).error), lower)))
            && (h.None? ==> forall t :: calls <= t <= calls + maxRetries ==> probe(t).Failure?)
            && (maxRetries >= 1 && h == Some(1) ==>
                  || (exists t :: calls <= t <= calls + maxRetries && probe(t).Success?)
                  || ParseLowestHeight(Wrapped(1, probe(calls).error), lower) == 1)
  {
    CallSucceedsIff(None, probe, calls + 1, maxRetries, "");
  }

  /** Probes block 1 once; reads the pruning boundary from the error if it names one; else retries. */
  method GetEarliestBlockHeight(channel: Channel, lookup: Option<string>, probe: nat -> Result<string, string>,
    maxRetries: nat, lower: char -> char)
    returns (r: Result<nat, string>)
    requires maxRetries < TWO_TO_THE_64 - 1
    modifies channel
    ensures r.Success? ==> 1 <= r.value < TWO_TO_THE_64
    ensures var h := EarliestHeight(lookup, probe, old(channel.calls), maxRetries, lower);
            if h.Some? then r == Success(h.value) else r.Failure?
    ensures channel.calls == old(channel.calls) + EarliestCalls(lookup, probe, old(channel.calls), maxRetries, lower)
  {
    var first := channel.RetryGRPCCall<string>(lookup, probe, 1, "");
    if first.Success? {
      return Success(1);
    }
    var lowest := ParseLowestHeight(first.error, lower);
    if lowest > 0 {
      return Success(lowest);
    }
    var again := channel.RetryGRPCCall<string>(lookup, probe, maxRetries, "");
    if again.Success? {
      return Success(1);
    }
    return Failure("failed to determine earliest block height");
  }

  /** The node's height as text, converted inside the retried call. */
  function Height(status: nat -> Result<string, string>): nat -> Result<nat, string> {
    t =>
      match status(t)
      case Failure(e) => Failure(e)
      case Success(text) =>
        match ParseUint64(text)
        case Some(h) => Success(h)
        case None => Failure("error parsing height")
  }

  method GetLatestBlockHeightWithRetry(channel: Channel, lookup: Option<string>,
    status: nat -> Result<string, string>, maxRetries: nat)
    returns (r: Result<nat, string>)
    requires maxRetries < TWO_TO_THE_64 - 1
    modifies channel
    ensures r == CallOutcome<nat>(lookup, Height(status), old(channel.calls), maxRetries, 0)
    ensures channel.calls
         == old(channel.calls) + CallAttempts<nat>(lookup, Height(status), old(channel.calls), maxRetries)
    ensures r.Success? ==> r.value < TWO_TO_THE_64
  {
    LatestHeightIsReported(lookup, status, channel.calls, maxRetries);
    r := channel.RetryGRPCCall<nat>(lookup, Height(status), maxRetries, 0);
  }

  /** A height that is obtained was reported by some attempt, in 64 bits; with no attempt allowed it is 0. */
  lemma LatestHeightIsReported(lookup: Option<string>, status: nat -> Result<string, string>, calls: nat,
    maxRetries: nat)
    ensures var r := CallOutcome<nat>(lookup, Height(status), calls, maxRetries, 0);
            && (r.Success? ==> r.value < TWO_TO_THE_64)
            && (r.Success? && maxRetries > 0 ==>
                  exists t :: calls <= t < calls + maxRetries && Reports(status, t, r.value))
            && (r.Success? && maxRetries == 0 ==> r.value == 0)
  {
    if lookup.None? && maxRetries > 0 {
      var attempt := Height(status);
      RetriedIsFirstSuccess<nat>(attempt, calls, maxRetries);
      var last := calls + AttemptsMade<nat>(attempt, calls, maxRetries) - 1;
      var r := CallOutcome<nat>(lookup, attempt, calls, maxRetries, 0);
      if r.Success? {
        assert attempt(last) == r;
        assert Reports(status, last, r.value);
      }
    }
  }

  predicate Reports(status: nat -> Result<string, string>, t: nat, h: nat) {
    status(t).Success? && ParseUint64(status(t).value) == Some(h)
  }
}
