/** Tokens still locked in a periodic vesting account. */
module Vesting {
  import opened Wrappers

  const MIN_INT64: int := -0x8000_0000_0000_0000
  const MAX_INT64: int := 0x7FFF_FFFF_FFFF_FFFF

  /** An amount as stored: text that may not be a number. */
  datatype Amount = Amount(denom: string, value: Option<int>)

  /** A period; its length is None when the text is not a 64-bit integer. */
  datatype Period = Period(length: Option<int>, amounts: seq<Amount>)

  predicate IsInt64(x: int) {
    MIN_INT64 <= x <= MAX_INT64
  }

  /** `int64` addition. */
  function Plus64(a: int, b: int): int {
    var m := (a + b - MIN_INT64) % 0x1_0000_0000_0000_0000;
    m + MIN_INT64
  }

  predicate AmountsParse(amounts: seq<Amount>, denom: string) {
    forall i :: 0 <= i < |amounts| && amounts[i].denom == denom ==> amounts[i].value.Some?
  }

  predicate Parses(periods: seq<Period>, denom: string) {
    forall i :: 0 <= i < |periods| ==> periods[i].length.Some? && AmountsParse(periods[i].amounts, denom)
  }

  /** What a period pays out in the denom. */
  function Paid(amounts: seq<Amount>, denom: string): int
    requires AmountsParse(amounts, denom)
  {
    if amounts == [] then 0
    else
      var last := amounts[|amounts| - 1];
      Paid(amounts[..|amounts| - 1], denom) + (if last.denom == denom then last.value.value else 0)
  }

  /** When the last of the periods unlocks. */
  function UnlockTime(start: int, periods: seq<Period>, denom: string): int
    requires Parses(periods, denom)
  {
    if periods == [] then start
    else Plus64(UnlockTime(start, periods[..|periods| - 1], denom), periods[|periods| - 1].length.value)
  }

  /** The periods' payments that unlock after `now`. */
  function Locked(start: int, now: int, periods: seq<Period>, denom: string): int
    requires Parses(periods, denom)
  {
    if periods == [] then 0
    else
      var k := |periods| - 1;
      Locked(start, now, periods[..k], denom)
      + (if UnlockTime(start, periods, denom) > now then Paid(periods[k].amounts, denom) else 0)
  }

  /**
   The scan fails exactly on a length that is not a number, or an amount that is not and is in the
   denom, whether its period has unlocked or not.
   */
  method CalculateLockedTokens(start: int, now: int, periods: seq<Period>, denom: string)
    returns (r: Result<int, string>)
    ensures r.Failure? <==>
              exists i :: 0 <= i < |periods| &&
                (periods[i].length == None
                 || exists j :: 0 <= j < |periods[i].amounts| && periods[i].amounts[j] == Amount(denom, None))
    ensures r.Success? <==> Parses(periods, denom)
    ensures r.Success? ==> r.value == Locked(start, now, periods, denom)
  {
    if |periods| == 0 {
      return Success(0);
    }
    var lockedAmount := 0;
    var unlockTime := start;
    for i := 0 to |periods|
      invariant Parses(periods[..i], denom)
      invariant unlockTime == UnlockTime(start, periods[..i], denom)
      invariant lockedAmount == Locked(start, now, periods[..i], denom)
    {
      var period := periods[i];
      if period.length.None? {
        return Failure("failed to parse length");
      }
      unlockTime := Plus64(unlockTime, period.length.value);
      ghost var before := lockedAmount;
      for j := 0 to |period.amounts|
        invariant AmountsParse(period.amounts[..j], denom)
        invariant lockedAmount == before + (if unlockTime > now then Paid(period.amounts[..j], denom) else 0)
      {
        var amount := period.amounts[j];
        assert period.amounts[..j + 1][..j] == period.amounts[..j];
        if amount.denom == denom {
          if amount.value.None? {
            return Failure("failed to parse amount");
          }
          if unlockTime > now {
            lockedAmount := lockedAmount + amount.value.value;
          }
        }
      }
      assert period.amounts[..|period.amounts|] == period.amounts;
      assert periods[..i + 1][..i] == periods[..i];
    }
    assert periods[..|periods|] == periods;
    return Success(lockedAmount);
  }

  /** What is paid is the sum over the amounts in the denom; others do not matter, whether they parse or not. */
  lemma {:induction false} PaidOfConcat(first: seq<Amount>, second: seq<Amount>, denom: string)
    requires AmountsParse(first, denom) && AmountsParse(second, denom)
    ensures AmountsParse(first + second, denom)
    ensures Paid(first + second, denom) == Paid(first, denom) + Paid(second, denom)
    decreases |second|
  {
    var both := first + second;
    if second == [] {
      assert both == first;
    } else {
      assert both[..|both| - 1] == first + second[..|second| - 1];
      PaidOfConcat(first, second[..|second| - 1], denom);
    }
  }

  lemma PaidOfOne(other: string, value: Option<int>, denom: string)
    requires other == denom ==> value.Some?
    ensures AmountsParse([Amount(other, value)], denom)
    ensures Paid([Amount(other, value)], denom) == if other == denom then value.value else 0
  {
    assert [Amount(other, value)][..0] == [];
  }

  /** A single period's pay is locked until its length has passed. */
  lemma LockedOfOne(start: int, now: int, length: int, amounts: seq<Amount>, denom: string)
    requires AmountsParse(amounts, denom)
    ensures Parses([Period(Some(length), amounts)], denom)
    ensures Locked(start, now, [Period(Some(length), amounts)], denom)
         == if Plus64(start, length) > now then Paid(amounts, denom) else 0
    ensures IsInt64(start + length) ==> Plus64(start, length) == start + length
  {
    var periods := [Period(Some(length), amounts)];
    assert periods[..0] == [];
    assert UnlockTime(start, periods, denom) == Plus64(UnlockTime(start, periods[..0], denom), length);
  }

  /** No amount in the denom is negative. */
  ghost predicate PaysNaturally(periods: seq<Period>, denom: string)
    requires Parses(periods, denom)
  {
    forall i, j :: 0 <= i < |periods| && 0 <= j < |periods[i].amounts| && periods[i].amounts[j].denom == denom ==>
      periods[i].amounts[j].value.value >= 0
  }

  /** Nor any length. */
  ghost predicate Natural(periods: seq<Period>, denom: string)
    requires Parses(periods, denom)
  {
    PaysNaturally(periods, denom) && forall i :: 0 <= i < |periods| ==> periods[i].length.value >= 0
  }

  /** Lengths and amounts are not negative, and no unlock time leaves the 64-bit range. */
  ghost predicate Regular(start: int, periods: seq<Period>, denom: string)
    requires Parses(periods, denom)
  {
    IsInt64(start) && Natural(periods, denom) && start + TotalLength(periods, denom) <= MAX_INT64
  }

  function TotalLength(periods: seq<Period>, denom: string): int
    requires Parses(periods, denom)
  {
    if periods == [] then 0
    else TotalLength(periods[..|periods| - 1], denom) + periods[|periods| - 1].length.value
  }

  /** Everything the periods pay in the denom. */
  function Total(periods: seq<Period>, denom: string): int
    requires Parses(periods, denom)
  {
    if periods == [] then 0
    else Total(periods[..|periods| - 1], denom) + Paid(periods[|periods| - 1].amounts, denom)
  }

  lemma {:induction false} PaidIsNatural(amounts: seq<Amount>, denom: string)
    requires AmountsParse(amounts, denom)
    requires forall j :: 0 <= j < |amounts| && amounts[j].denom == denom ==> amounts[j].value.value >= 0
    ensures Paid(amounts, denom) >= 0
  {
    if amounts != [] {
      PaidIsNatural(amounts[..|amounts| - 1], denom);
    }
  }

  lemma RegularPrefix(start: int, periods: seq<Period>, denom: string)
    requires Parses(periods, denom) && Regular(start, periods, denom) && periods != []
    ensures Regular(start, periods[..|periods| - 1], denom)
    ensures Paid(periods[|periods| - 1].amounts, denom) >= 0
  {
    var front := periods[..|periods| - 1];
    assert TotalLength(periods, denom) == TotalLength(front, denom) + periods[|periods| - 1].length.value;
    PaidIsNatural(periods[|periods| - 1].amounts, denom);
  }

  /** Without overflow the unlock time is the start plus all lengths, and never before the start. */
  lemma {:induction false} UnlockTimeIsSum(start: int, periods: seq<Period>, denom: string)
    requires Parses(periods, denom) && Regular(start, periods, denom)
    ensures UnlockTime(start, periods, denom) == start + TotalLength(periods, denom)
    ensures TotalLength(periods, denom) >= 0
  {
    if periods != [] {
      RegularPrefix(start, periods, denom);
      UnlockTimeIsSum(start, periods[..|periods| - 1], denom);
    }
  }

  /** The amount locked lies between zero and the total, and is zero once the last period has unlocked. */
  lemma {:induction false} LockedIsPartOfTotal(start: int, now: int, periods: seq<Period>, denom: string)
    requires Parses(periods, denom) && Regular(start, periods, denom)
    ensures 0 <= Locked(start, now, periods, denom) <= Total(periods, denom)
    ensures UnlockTime(start, periods, denom) <= now ==> Locked(start, now, periods, denom) == 0
    ensures now < start ==> Locked(start, now, periods, denom) == Total(periods, denom)
  {
    if periods != [] {
      RegularPrefix(start, periods, denom);
      LockedIsPartOfTotal(start, now, periods[..|periods| - 1], denom);
      UnlockTimeIsSum(start, periods, denom);
      UnlockTimeIsSum(start, periods[..|periods| - 1], denom);
    }
  }

  /** As time passes, nothing is locked again, whatever the lengths and however unlock times wrap. */
  lemma {:induction false} LockedNeverGrows(start: int, now: int, later: int, periods: seq<Period>, denom: string)
    requires Parses(periods, denom) && PaysNaturally(periods, denom) && now <= later
    ensures Locked(start, later, periods, denom) <= Locked(start, now, periods, denom)
  {
    if periods != [] {
      PaidIsNatural(periods[|periods| - 1].amounts, denom);
      LockedNeverGrows(start, now, later, periods[..|periods| - 1], denom);
    }
  }

  /** A schedule in two parts locks what the first part does, plus the second started when the first ends. */
  lemma {:induction false} LockedSplits(start: int, now: int, first: seq<Period>, second: seq<Period>, denom: string)
    requires Parses(first, denom) && Parses(second, denom)
    ensures Parses(first + second, denom)
    ensures UnlockTime(start, first + second, denom) == UnlockTime(UnlockTime(start, first, denom), second, denom)
    ensures Locked(start, now, first + second, denom)
         == Locked(start, now, first, denom) + Locked(UnlockTime(start, first, denom), now, second, denom)
    decreases |second|
  {
    var both := first + second;
    if second == [] {
      assert both == first;
    } else {
      var k := |second| - 1;
      assert both[..|both| - 1] == first + second[..k];
      LockedSplits(start, now, first, second[..k], denom);
    }
  }

  /** The number of periods that have unlocked, found by stopping at the first one that has not. */
  function Unlocked(start: int, now: int, periods: seq<Period>, denom: string): (k: nat)
    requires Parses(periods, denom)
    ensures k <= |periods|
    decreases |periods|
  {
    if periods == [] || Plus64(start, periods[0].length.value) > now then 0
    else 1 + Unlocked(Plus64(start, periods[0].length.value), now, periods[1..], denom)
  }

  /** While the first period is locked, all are. */
  lemma FirstLockedMeansAll(start: int, now: int, periods: seq<Period>, denom: string)
    requires Parses(periods, denom) && Regular(start, periods, denom) && periods != []
    requires start + periods[0].length.value > now
    ensures Locked(start, now, periods, denom) == Total(periods, denom)
  {
    SplitFirst(start, now, periods, denom);
    RegularTail(start, periods, denom);
    LockedIsPartOfTotal(start + periods[0].length.value, now, periods[1..], denom);
  }

  /** The first period taken apart from the rest, which starts when it ends. */
  lemma SplitFirst(start: int, now: int, periods: seq<Period>, denom: string)
    requires Parses(periods, denom) && Regular(start, periods, denom) && periods != []
    ensures var next := start + periods[0].length.value;
            var paid := Paid(periods[0].amounts, denom);
            && Locked(start, now, periods, denom)
               == (if next > now then paid else 0) + Locked(next, now, periods[1..], denom)
            && Total(periods, denom) == paid + Total(periods[1..], denom)
  {
    var first := periods[..1];
    assert periods == first + periods[1..];
    assert first[..0] == [];
    RegularTail(start, periods, denom);
    LockedSplits(start, now, first, periods[1..], denom);
    TotalSplits(first, periods[1..], denom);
  }

  lemma DropOneMore(periods: seq<Period>, k: nat, denom: string)
    requires Parses(periods, denom) && 1 + k <= |periods|
    ensures Total(periods[1 + k..], denom) == Total(periods[1..][k..], denom)
  {
    assert periods[1 + k..] == periods[1..][k..];
  }

  /** The first period counts as unlocked, or none does. */
  lemma UnlockedFirst(start: int, now: int, periods: seq<Period>, denom: string)
    requires Parses(periods, denom) && Regular(start, periods, denom) && periods != []
    ensures var next := start + periods[0].length.value;
            Unlocked(start, now, periods, denom)
            == if next > now then 0 else 1 + Unlocked(next, now, periods[1..], denom)
  {
    RegularTail(start, periods, denom);
  }

  /** The full scan amounts to dropping the unlocked prefix and adding up all the rest. */
  lemma LockedIsSuffixSum(start: int, now: int, periods: seq<Period>, denom: string)
    requires Parses(periods, denom) && Regular(start, periods, denom)
    ensures Locked(start, now, periods, denom) == Total(periods[Unlocked(start, now, periods, denom)..], denom)
  {
    LockedIsSuffix(start, now, periods, denom, Unlocked(start, now, periods, denom));
  }

  lemma {:induction false} LockedIsSuffix(start: int, now: int, periods: seq<Period>, denom: string, k: nat)
    requires Parses(periods, denom) && Regular(start, periods, denom) && k == Unlocked(start, now, periods, denom)
    ensures Locked(start, now, periods, denom) == Total(periods[k..], denom)
    decreases |periods|
  {
    if periods != [] {
      UnlockedFirst(start, now, periods, denom);
      var next := start + periods[0].length.value;
      if next > now {
        FirstLockedMeansAll(start, now, periods, denom);
        assert periods[0..] == periods;
      } else {
        RegularTail(start, periods, denom);
        SplitFirst(start, now, periods, denom);
        LockedIsSuffix(next, now, periods[1..], denom, k - 1);
        DropOneMore(periods, k - 1, denom);
      }
    }
  }

  lemma {:induction false} TotalSplits(first: seq<Period>, second: seq<Period>, denom: string)
    requires Parses(first, denom) && Parses(second, denom)
    ensures Parses(first + second, denom)
    ensures Total(first + second, denom) == Total(first, denom) + Total(second, denom)
    ensures TotalLength(first + second, denom) == TotalLength(first, denom) + TotalLength(second, denom)
    decreases |second|
  {
    var both := first + second;
    if second == [] {
      assert both == first;
    } else {
      assert both[..|both| - 1] == first + second[..|second| - 1];
      TotalSplits(first, second[..|second| - 1], denom);
    }
  }

  lemma RegularTail(start: int, periods: seq<Period>, denom: string)
    requires Parses(periods, denom) && Regular(start, periods, denom) && periods != []
    ensures Plus64(start, periods[0].length.value) == start + periods[0].length.value
    ensures Regular(start + periods[0].length.value, periods[1..], denom)
  {
    assert periods == periods[..1] + periods[1..];
    TotalSplits(periods[..1], periods[1..], denom);
    assert TotalLength(periods[..1], denom) == periods[0].length.value;
    NaturalLength(periods[1..], denom);
  }

  lemma {:induction false} NaturalLength(periods: seq<Period>, denom: string)
    requires Parses(periods, denom) && forall i :: 0 <= i < |periods| ==> periods[i].length.value >= 0
    ensures TotalLength(periods, denom) >= 0
  {
    if periods != [] {
      NaturalLength(periods[..|periods| - 1], denom);
    }
  }

  /** Locked and unlocked together are the total. */
  lemma LockedPlusUnlocked(start: int, now: int, periods: seq<Period>, denom: string)
    requires Parses(periods, denom) && Regular(start, periods, denom)
    ensures var k := Unlocked(start, now, periods, denom);
            Total(periods[..k], denom) + Locked(start, now, periods, denom) == Total(periods, denom)
  {
    var k := Unlocked(start, now, periods, denom);
    LockedIsSuffixSum(start, now, periods, denom);
    assert periods == periods[..k] + periods[k..];
    TotalSplits(periods[..k], periods[k..], denom);
  }

  /** An `int64` sum, however often the additions wrapped. */
  function Wrap64(x: int): int {
    (x - MIN_INT64) % 0x1_0000_0000_0000_0000 + MIN_INT64
  }

  lemma WrapOnce(a: int, b: int)
    ensures Plus64(Wrap64(a), b) == Wrap64(a + b)
    ensures IsInt64(a) ==> Wrap64(a) == a
    ensures IsInt64(Wrap64(a)) && (a > MAX_INT64 || a == Wrap64(a) || a < MIN_INT64)
  {
  }

  /** A time that is not before the 64-bit range can only wrap to an earlier one. */
  lemma WrapMovesBack(x: int, now: int)
    requires MIN_INT64 <= x && IsInt64(now)
    ensures Wrap64(x) > now ==> x > now
    ensures x > now && Wrap64(x) <= now ==> x > MAX_INT64
  {
    WrapOnce(x, 0);
  }

  /** The unlock time is the unbounded one, wrapped. */
  lemma {:induction false} UnlockTimeWraps(start: int, periods: seq<Period>, denom: string)
    requires Parses(periods, denom) && IsInt64(start)
    ensures UnlockTime(start, periods, denom) == Wrap64(start + TotalLength(periods, denom))
  {
    WrapOnce(start, 0);
    if periods != [] {
      var k := |periods| - 1;
      UnlockTimeWraps(start, periods[..k], denom);
      WrapOnce(start + TotalLength(periods[..k], denom), periods[k].length.value);
    }
  }

  /** What is locked by unbounded unlock times. */
  function TrueLocked(start: int, now: int, periods: seq<Period>, denom: string): int
    requires Parses(periods, denom)
  {
    if periods == [] then 0
    else
      var k := |periods| - 1;
      TrueLocked(start, now, periods[..k], denom)
      + (if start + TotalLength(periods, denom) > now then Paid(periods[k].amounts, denom) else 0)
  }

  /** Period `i` pays something, and its unlock time has wrapped to a time that is not after `now`. */
  ghost predicate UnlocksByWrapping(start: int, now: int, periods: seq<Period>, denom: string, i: nat)
    requires Parses(periods, denom) && i < |periods|
  {
    var unlock := start + TotalLength(periods[..i + 1], denom);
    Paid(periods[i].amounts, denom) > 0 && unlock > MAX_INT64 && Wrap64(unlock) <= now
  }

  /** What the last period adds to either sum. */
  lemma LastPeriod(start: int, now: int, periods: seq<Period>, denom: string)
    requires Parses(periods, denom) && Natural(periods, denom) && IsInt64(start) && IsInt64(now) && periods != []
    ensures var k := |periods| - 1;
            var counted := Locked(start, now, periods, denom) - Locked(start, now, periods[..k], denom);
            var due := TrueLocked(start, now, periods, denom) - TrueLocked(start, now, periods[..k], denom);
            counted <= due && (counted == due <==> !UnlocksByWrapping(start, now, periods, denom, k))
  {
    var k := |periods| - 1;
    assert periods[..k + 1] == periods;
    PaidIsNatural(periods[k].amounts, denom);
    UnlockTimeWraps(start, periods, denom);
    NaturalLength(periods, denom);
    WrapMovesBack(start + TotalLength(periods, denom), now);
  }

  lemma EarlierPeriod(start: int, now: int, periods: seq<Period>, denom: string, i: nat)
    requires Parses(periods, denom) && i < |periods| - 1
    ensures UnlocksByWrapping(start, now, periods, denom, i) <==>
              UnlocksByWrapping(start, now, periods[..|periods| - 1], denom, i)
  {
    assert periods[..i + 1] == periods[..|periods| - 1][..i + 1];
  }

  ghost predicate SomeUnlocksByWrapping(start: int, now: int, periods: seq<Period>, denom: string)
    requires Parses(periods, denom)
  {
    exists i :: 0 <= i < |periods| && UnlocksByWrapping(start, now, periods, denom, i)
  }

  lemma SomeUnlocksSplits(start: int, now: int, periods: seq<Period>, denom: string)
    requires Parses(periods, denom) && periods != []
    ensures var k := |periods| - 1;
            SomeUnlocksByWrapping(start, now, periods, denom) <==>
              SomeUnlocksByWrapping(start, now, periods[..k], denom) || UnlocksByWrapping(start, now, periods, denom, k)
  {
    var k := |periods| - 1;
    forall i | 0 <= i < k
      ensures UnlocksByWrapping(start, now, periods, denom, i) <==>
                UnlocksByWrapping(start, now, periods[..k], denom, i)
    {
      EarlierPeriod(start, now, periods, denom, i);
    }
  }

  /**
   The scan never counts too much. It counts too little exactly if the unlock time of some period
   that pays wraps around to a time that has passed.
   */
  lemma {:induction false} LockedIsTrueIff(start: int, now: int, periods: seq<Period>, denom: string)
    requires Parses(periods, denom) && Natural(periods, denom) && IsInt64(start) && IsInt64(now)
    ensures Locked(start, now, periods, denom) <= TrueLocked(start, now, periods, denom)
    ensures Locked(start, now, periods, denom) == TrueLocked(start, now, periods, denom) <==>
              !SomeUnlocksByWrapping(start, now, periods, denom)
    decreases |periods|
  {
    if periods != [] {
      LockedIsTrueIff(start, now, periods[..|periods| - 1], denom);
      LastPeriod(start, now, periods, denom);
      SomeUnlocksSplits(start, now, periods, denom);
    }
  }

  /** While unlock times wrap once at most, every wrapped one has passed. */
  lemma OneWrapUnlocks(start: int, now: int, periods: seq<Period>, denom: string)
    requires Parses(periods, denom) && Natural(periods, denom) && IsInt64(start) && IsInt64(now)
    requires start + TotalLength(periods, denom) <= now + 0x1_0000_0000_0000_0000
    ensures Locked(start, now, periods, denom) == TrueLocked(start, now, periods, denom) <==>
              forall i :: 0 <= i < |periods| && Paid(periods[i].amounts, denom) > 0 ==>
                start + TotalLength(periods[..i + 1], denom) <= MAX_INT64
  {
    LockedIsTrueIff(start, now, periods, denom);
    forall i | 0 <= i < |periods|
      ensures UnlocksByWrapping(start, now, periods, denom, i) <==>
                Paid(periods[i].amounts, denom) > 0 && start + TotalLength(periods[..i + 1], denom) > MAX_INT64
    {
      PrefixIsShorter(periods, denom, i);
    }
  }

  lemma PrefixIsShorter(periods: seq<Period>, denom: string, i: nat)
    requires Parses(periods, denom) && Natural(periods, denom) && i < |periods|
    ensures TotalLength(periods[..i + 1], denom) <= TotalLength(periods, denom)
  {
    assert periods == periods[..i + 1] + periods[i + 1..];
    TotalSplits(periods[..i + 1], periods[i + 1..], denom);
    NaturalLength(periods[i + 1..], denom);
  }

  /** The condition can be violated: one period, one second past the last 64-bit time. */
  lemma OverflowUnlocks(now: int, paid: int, denom: string)
    requires IsInt64(now) && paid > 0
    ensures var periods := [Period(Some(1), [Amount(denom, Some(paid))])];
            && Parses(periods, denom) && Natural(periods, denom)
            && UnlocksByWrapping(MAX_INT64, now, periods, denom, 0)
            && Locked(MAX_INT64, now, periods, denom) == 0
            && TrueLocked(MAX_INT64, now, periods, denom) == paid
  {
    var amounts := [Amount(denom, Some(paid))];
    var periods := [Period(Some(1), amounts)];
    assert periods[..0] == [] && amounts[..0] == [] && periods[..1] == periods;
    assert Paid(amounts, denom) == paid;
    assert UnlockTime(MAX_INT64, periods, denom) == MIN_INT64;
    assert TotalLength(periods, denom) == 1;
  }
}
