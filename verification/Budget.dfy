/** Cost accounting in 64-bit words, and the oversize policy that is checked before it. */
module Budgeting {
  import opened Text
  import opened Specification

  /** Addition as the release build performs it. */
  function WrapAdd(a: u64, b: u64): u64 {
    (a + b) % U64
  }

  datatype DispatchCost = DispatchCost(wallClockSecs: u64, bytes: u64)

  /** What has been charged in either dimension. */
  datatype Account = Account(wallClock: u64, bytes: u64)

  function Spend(spent: Account, cost: DispatchCost): Account {
    Account(WrapAdd(spent.wallClock, cost.wallClockSecs), WrapAdd(spent.bytes, cost.bytes))
  }

  class Budget {
    const wallClockLimit: u64
    const bytesLimit: u64
    const estimable: bool
    var wallClockConsumed: u64
    var bytesConsumed: u64

    constructor (wallClockSeconds: u64, bytes: u64, estimable: bool)
      ensures wallClockLimit == wallClockSeconds && bytesLimit == bytes && this.estimable == estimable
      ensures wallClockConsumed == 0 && bytesConsumed == 0
    {
      wallClockLimit, bytesLimit, this.estimable := wallClockSeconds, bytes, estimable;
      wallClockConsumed, bytesConsumed := 0, 0;
    }

    constructor Clone(b: Budget)
      ensures wallClockLimit == b.wallClockLimit && bytesLimit == b.bytesLimit && estimable == b.estimable
      ensures wallClockConsumed == b.wallClockConsumed && bytesConsumed == b.bytesConsumed && Spent() == b.Spent()
    {
      wallClockLimit, bytesLimit, estimable := b.wallClockLimit, b.bytesLimit, b.estimable;
      wallClockConsumed, bytesConsumed := b.wallClockConsumed, b.bytesConsumed;
    }

    function Spent(): Account
      reads this
    {
      Account(wallClockConsumed, bytesConsumed)
    }

    /** After these charges a further cost stays within both limits. A budget without estimates affords nothing. */
    predicate Affords(spent: Account, cost: DispatchCost) {
      && estimable
      && WrapAdd(spent.wallClock, cost.wallClockSecs) <= wallClockLimit
      && WrapAdd(spent.bytes, cost.bytes) <= bytesLimit
    }

    predicate EstimateOk(cost: DispatchCost)
      reads this
    {
      Affords(Spent(), cost)
    }

    method Consume(wallClockSecs: u64, bytes: u64)
      modifies this
      ensures wallClockConsumed == WrapAdd(old(wallClockConsumed), wallClockSecs)
      ensures bytesConsumed == WrapAdd(old(bytesConsumed), bytes)
      ensures Spent() == Spend(old(Spent()), DispatchCost(wallClockSecs, bytes))
    {
      wallClockConsumed := WrapAdd(wallClockConsumed, wallClockSecs);
      bytesConsumed := WrapAdd(bytesConsumed, bytes);
    }

    predicate Exceeded()
      reads this
    {
      wallClockConsumed > wallClockLimit || bytesConsumed > bytesLimit
    }
  }

  /** Where neither sum overflows, a cost is afforded exactly when both sums stay within their limits. */
  lemma AffordsExactly(budget: Budget, spent: Account, cost: DispatchCost)
    requires spent.wallClock + cost.wallClockSecs < U64 && spent.bytes + cost.bytes < U64
    ensures budget.Affords(spent, cost)
       <==> && budget.estimable && spent.wallClock + cost.wallClockSecs <= budget.wallClockLimit
            && spent.bytes + cost.bytes <= budget.bytesLimit
  {
  }

  datatype OversizePolicy = OversizePolicy(thresholdPercent: nat)
  {
    predicate Valid() {
      1 <= thresholdPercent <= 100
    }

    /** Reaching the threshold share of a configured byte limit; a zero limit disables the gate. */
    predicate Exceeds(estimatedBytes: u64, byteLimit: u64) {
      byteLimit != 0 && estimatedBytes * 100 >= thresholdPercent * byteLimit
    }
  }

  function NewPolicy(thresholdPercent: nat): (r: Result<OversizePolicy, CoordinatorError>)
    ensures r.Ok? <==> 1 <= thresholdPercent <= 100
    ensures r.Ok? ==> r.value.Valid() && r.value.thresholdPercent == thresholdPercent
  {
    if 1 <= thresholdPercent <= 100 then Ok(OversizePolicy(thresholdPercent))
    else Err(CoordinatorError(InvalidSpec, ThresholdOutOfRange))
  }

  /** The largest estimate the policy lets through to the budget. */
  function LargestAdmitted(policy: OversizePolicy, byteLimit: u64): nat
    requires policy.Valid() && byteLimit > 0
  {
    (policy.thresholdPercent * byteLimit - 1) / 100
  }

  /** A full budget plus the largest admitted estimate still fits a 64-bit word. */
  predicate GuardExact(policy: OversizePolicy, byteLimit: u64)
    requires policy.Valid()
  {
    byteLimit == 0 || byteLimit + LargestAdmitted(policy, byteLimit) < U64
  }

  /** The byte test accepts exactly the estimates that fit what is left. */
  ghost predicate ByteTestExact(policy: OversizePolicy, byteLimit: u64) {
    forall consumed: u64, bytes: u64 {:trigger WrapAdd(consumed, bytes)} ::
      consumed <= byteLimit && !policy.Exceeds(bytes, byteLimit) ==>
        (WrapAdd(consumed, bytes) <= byteLimit <==> consumed + bytes <= byteLimit)
  }

  /** Without a byte limit nothing is oversize. */
  lemma NoLimitNoGate(policy: OversizePolicy, bytes: u64)
    ensures !policy.Exceeds(bytes, 0)
  {
  }

  lemma AdmittedBound(policy: OversizePolicy, byteLimit: u64, bytes: u64)
    requires policy.Valid() && byteLimit > 0
    ensures policy.Exceeds(bytes, byteLimit) <==> bytes > LargestAdmitted(policy, byteLimit)
    ensures LargestAdmitted(policy, byteLimit) < byteLimit
  {
    ShareBounds(policy.thresholdPercent, byteLimit);
    HundredthBound(policy.thresholdPercent * byteLimit, byteLimit, bytes);
  }

  lemma ShareBounds(percent: nat, limit: nat)
    requires 1 <= percent <= 100
    ensures limit <= percent * limit <= 100 * limit
  {
    SharesGrow(1, percent, limit);
    SharesGrow(percent, 100, limit);
  }

  lemma {:induction false} SharesGrow(a: nat, b: nat, limit: nat)
    requires a <= b
    ensures a * limit <= b * limit
    decreases b
  {
    if a < b {
      SharesGrow(a, b - 1, limit);
    }
  }

  /** The largest whole number below a hundredth of the share. */
  lemma HundredthBound(share: nat, limit: nat, bytes: nat)
    requires 1 <= share <= 100 * limit
    ensures bytes * 100 >= share <==> bytes > (share - 1) / 100
    ensures (share - 1) / 100 < limit
  {
    var q, r := (share - 1) / 100, (share - 1) % 100;
    assert share - 1 == 100 * q + r;
  }

  /** Wrap-around makes the byte test wrong for exactly the limits that leave no headroom for one more estimate. */
  lemma ByteTestExactIff(policy: OversizePolicy, byteLimit: u64)
    requires policy.Valid()
    ensures ByteTestExact(policy, byteLimit) <==> GuardExact(policy, byteLimit)
  {
    if GuardExact(policy, byteLimit) {
      forall consumed: u64, bytes: u64 | consumed <= byteLimit && !policy.Exceeds(bytes, byteLimit)
        ensures WrapAdd(consumed, bytes) <= byteLimit <==> consumed + bytes <= byteLimit
      {
        if byteLimit > 0 {
          AdmittedBound(policy, byteLimit, bytes);
        }
        assert consumed + bytes < U64;
      }
    } else {
      var bytes := LargestAdmitted(policy, byteLimit);
      AdmittedBound(policy, byteLimit, bytes);
      assert WrapAdd(byteLimit, bytes) == byteLimit + bytes - U64 <= byteLimit;
    }
  }

  const DEFAULT_BYTES_BUDGET: u64 := 100 * 1024 * 1024

  /** Every limit up to half the word range, the built-in one included, is exact under every threshold. */
  lemma HalfRangeExact(policy: OversizePolicy, byteLimit: u64)
    requires policy.Valid() && byteLimit <= U64 / 2
    ensures GuardExact(policy, byteLimit) && GuardExact(policy, DEFAULT_BYTES_BUDGET)
  {
    if byteLimit > 0 {
      AdmittedBound(policy, byteLimit, 0);
    }
    AdmittedBound(policy, DEFAULT_BYTES_BUDGET, 0);
  }

  /** A limit where it fails: two estimates of nearly the whole range are both let through. */
  lemma TopOfRangeInexact()
    ensures var limit: u64 := U64 - 1;
            var bytes: u64 := U64 - 2;
            && !OversizePolicy(100).Exceeds(bytes, limit)
            && WrapAdd(0, bytes) <= limit && WrapAdd(bytes, bytes) <= limit && bytes + bytes > limit
  {
    assert (U64 - 2 + U64 - 2) % U64 == U64 - 4;
  }
}
