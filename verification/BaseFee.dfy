/**
 The EIP-1559 base fee calculator (go/eip1559/basefee.go). `big.Int.Div` is Euclidean division, as Dafny's `/`
 is, so the fee is an `int` and no precondition excludes a negative one.
 */
module BaseFee {

  const TARGET_GAS: nat := 15_000_000
  const MAX_CHANGE_DENOMINATOR: nat := 8

  function Abs(x: int): nat { if x < 0 then -x else x }

  /** Size of the adjustment: two successive divisions, as the calculator does them. */
  function Adjustment(fee: int, gasUsed: nat): int {
    fee * Abs(gasUsed - TARGET_GAS) / TARGET_GAS / MAX_CHANGE_DENOMINATOR
  }

  /** The fee before the one-wei clamp. */
  function Unclamped(fee: int, gasUsed: nat): int {
    if gasUsed < TARGET_GAS then fee - Adjustment(fee, gasUsed) else fee + Adjustment(fee, gasUsed)
  }

  function NextBaseFee(fee: int, gasUsed: nat): int {
    if Unclamped(fee, gasUsed) < 1 then 1 else Unclamped(fee, gasUsed)
  }

  method CalcNextBaseFee(currentBaseFee: int, gasUsed: nat) returns (next: int)
    ensures next == NextBaseFee(currentBaseFee, gasUsed)
  {
    var delta := gasUsed as int;
    delta := delta - TARGET_GAS;
    var absDelta := Abs(delta);
    var scaled := currentBaseFee * absDelta;
    scaled := scaled / TARGET_GAS;
    scaled := scaled / 8;
    if delta < 0 {
      scaled := -scaled;
    }
    next := currentBaseFee + scaled;
    if next < 1 {
      next := 1;
    }
  }

  // ----- One block -----

  lemma TwoDivisions(x: int)
    ensures x / TARGET_GAS / MAX_CHANGE_DENOMINATOR == x / (TARGET_GAS * MAX_CHANGE_DENOMINATOR)
    ensures var q := x / TARGET_GAS / MAX_CHANGE_DENOMINATOR;
            120_000_000 * q <= x < 120_000_000 * q + 120_000_000
  {
    var q := x / TARGET_GAS;
    assert 15_000_000 * q <= x < 15_000_000 * q + 15_000_000;
    assert 8 * (q / 8) <= q <= 8 * (q / 8) + 7;
  }

  /** The two floor divisions are one division by `8 * TARGET_GAS`. */
  lemma AdjustmentIsOneDivision(fee: int, gasUsed: nat)
    ensures Adjustment(fee, gasUsed) == fee * Abs(gasUsed - TARGET_GAS) / (TARGET_GAS * MAX_CHANGE_DENOMINATOR)
  {
    TwoDivisions(fee * Abs(gasUsed - TARGET_GAS));
  }

  /** Bounds that pin the adjustment `a` down for the product `p` of fee and distance, without division. */
  ghost predicate Pinned(p: int, a: int) {
    120_000_000 * a <= p < 120_000_000 * a + 120_000_000
  }

  lemma AdjustmentIsPinned(fee: int, gasUsed: nat)
    ensures Pinned(fee * Abs(gasUsed - TARGET_GAS), Adjustment(fee, gasUsed))
  {
    TwoDivisions(fee * Abs(gasUsed - TARGET_GAS));
  }

  lemma ProductBounds(k: nat, d: nat)
    requires d <= TARGET_GAS
    ensures 0 <= k * d <= k * TARGET_GAS
  {
  }

  lemma ProductDifference(a: int, b: int, d: int)
    ensures b * d - a * d == (b - a) * d
  {
  }

  /** A full or empty block moves the fee by at most an eighth, and the clamp stays idle. */
  lemma BlockBounds(fee: int, gasUsed: nat)
    requires fee >= 1 && gasUsed <= 2 * TARGET_GAS
    ensures Unclamped(fee, gasUsed) >= 1
    ensures 7 * fee <= 8 * NextBaseFee(fee, gasUsed) <= 9 * fee
  {
    AdjustmentIsPinned(fee, gasUsed);
    ProductBounds(fee, Abs(gasUsed - TARGET_GAS));
  }

  /** More gas and a higher fee never give a lower next fee. */
  lemma BlockMonotone(fee: int, fee': int, gas: nat, gas': nat)
    requires 0 <= fee <= fee' && gas <= gas'
    ensures NextBaseFee(fee, gas) <= NextBaseFee(fee', gas')
  {
    MonotoneInFee(fee, fee', gas);
    MonotoneInGas(fee', gas, gas');
  }

  lemma MonotoneInFee(fee: int, fee': int, gas: nat)
    requires 0 <= fee <= fee'
    ensures Unclamped(fee, gas) <= Unclamped(fee', gas)
  {
    var d := Abs(gas - TARGET_GAS);
    AdjustmentIsPinned(fee, gas);
    AdjustmentIsPinned(fee', gas);
    ProductDifference(fee, fee', d);
    NonNegative(fee' - fee, d);
    if gas < TARGET_GAS { ProductBounds(fee' - fee, d); }
  }

  lemma NonNegative(k: nat, d: nat)
    ensures k * d >= 0
  {
  }

  lemma MonotoneInGas(fee: int, gas: nat, gas': nat)
    requires 0 <= fee && gas <= gas'
    ensures Unclamped(fee, gas) <= Unclamped(fee, gas')
  {
    var d, d' := Abs(gas - TARGET_GAS), Abs(gas' - TARGET_GAS);
    AdjustmentIsPinned(fee, gas);
    AdjustmentIsPinned(fee, gas');
    NonNegative(fee, d);
    NonNegative(fee, d');
    ProductDifference(d, d', fee);
    if gas >= TARGET_GAS {
      NonNegative(d' - d, fee);
    } else if gas' < TARGET_GAS {
      NonNegative(d - d', fee);
      ProductDifference(d', d, fee);
    }
  }

  // ----- Against the Specification section of EIP-1559 -----

  /** The next base fee of EIP-1559, with its own branches and its minimum step of one wei above target. */
  function Eip1559(fee: int, gasUsed: nat): int {
    if gasUsed == TARGET_GAS then fee
    else if gasUsed > TARGET_GAS then
      var delta := fee * (gasUsed - TARGET_GAS) / TARGET_GAS / MAX_CHANGE_DENOMINATOR;
      fee + (if delta > 1 then delta else 1)
    else
      fee - fee * (TARGET_GAS - gasUsed) / TARGET_GAS / MAX_CHANGE_DENOMINATOR
  }

  /**
   For a positive fee the calculator differs only by leaving out the minimum step, and is then one less. For a fee of
   zero it differs only by its one-wei clamp, unless gas is above target and the minimum step gives one wei as well.
   */
  lemma DiffersFromEip1559Only(fee: int, gasUsed: nat)
    requires fee >= 0
    ensures NextBaseFee(fee, gasUsed) == Eip1559(fee, gasUsed)
            <==> if fee == 0 then gasUsed > TARGET_GAS
                 else !(gasUsed > TARGET_GAS && fee * (gasUsed - TARGET_GAS) < TARGET_GAS * MAX_CHANGE_DENOMINATOR)
    ensures NextBaseFee(fee, gasUsed) != Eip1559(fee, gasUsed)
            ==> NextBaseFee(fee, gasUsed) == Eip1559(fee, gasUsed) + if fee == 0 then 1 else -1
  {
    AdjustmentIsPinned(fee, gasUsed);
    if fee == 0 {
      ZeroFee(gasUsed);
    } else if gasUsed > TARGET_GAS {
      NonNegative(fee, gasUsed - TARGET_GAS);
    } else {
      BlockBounds(fee, gasUsed);
    }
  }

  lemma ZeroFee(gasUsed: nat)
    ensures NextBaseFee(0, gasUsed) == 1 && Eip1559(0, gasUsed) == if gasUsed > TARGET_GAS then 1 else 0
  {
  }

  /** A fee of one wei stays where it is on a block just above target, where EIP-1559 raises it. */
  lemma MinimumStepIsMissing()
    ensures NextBaseFee(1, 15_000_001) == 1 && Eip1559(1, 15_000_001) == 2
  {
  }

  // ----- Whole block sequences -----

  /** The fee after the blocks that used `gas`, oldest first. */
  function FeeAfter(fee: int, gas: seq<nat>): int {
    if gas == [] then fee
    else NextBaseFee(FeeAfter(fee, gas[..|gas| - 1]), gas[|gas| - 1])
  }

  function Pow(b: nat, n: nat): nat {
    if n == 0 then 1 else b * Pow(b, n - 1)
  }

  /** Over any run of protocol-sized blocks the fee stays between (7/8)^n and (9/8)^n of its start, unclamped. */
  lemma {:induction false} TrajectoryBounds(fee: int, gas: seq<nat>)
    requires fee >= 1
    requires forall i :: 0 <= i < |gas| ==> gas[i] <= 2 * TARGET_GAS
    ensures FeeAfter(fee, gas) >= 1
    ensures Pow(7, |gas|) * fee <= Pow(8, |gas|) * FeeAfter(fee, gas) <= Pow(9, |gas|) * fee
    ensures gas != [] ==> FeeAfter(fee, gas) == Unclamped(FeeAfter(fee, gas[..|gas| - 1]), gas[|gas| - 1])
  {
    if gas != [] {
      var n := |gas| - 1;
      var before, after := FeeAfter(fee, gas[..n]), FeeAfter(fee, gas);
      TrajectoryBounds(fee, gas[..n]);
      BlockBounds(before, gas[n]);
      ScaleChain(Pow(7, n), Pow(8, n), fee, before, 7, 8, after);
      ScaleChain'(Pow(9, n), Pow(8, n), fee, before, 9, 8, after);
    }
  }

  lemma ScaleChain(p: nat, q: nat, a: nat, b: nat, x: nat, y: nat, c: nat)
    requires p * a <= q * b && x * b <= y * c
    ensures (x * p) * a <= (y * q) * c
  {
    assert (x * p) * a == x * (p * a);
    assert x * (p * a) <= x * (q * b) by { MulMono(x, p * a, q * b); }
    assert x * (q * b) == q * (x * b);
    assert q * (x * b) <= q * (y * c) by { MulMono(q, x * b, y * c); }
    assert q * (y * c) == (y * q) * c;
  }

  lemma ScaleChain'(p: nat, q: nat, a: nat, b: nat, x: nat, y: nat, c: nat)
    requires q * b <= p * a && y * c <= x * b
    ensures (y * q) * c <= (x * p) * a
  {
    assert (y * q) * c == q * (y * c);
    assert q * (y * c) <= q * (x * b) by { MulMono(q, y * c, x * b); }
    assert q * (x * b) == x * (q * b);
    assert x * (q * b) <= x * (p * a) by { MulMono(x, q * b, p * a); }
    assert x * (p * a) == (x * p) * a;
  }

  lemma MulMono(k: nat, a: nat, b: nat)
    requires a <= b
    ensures k * a <= k * b
  {
  }

  /** Pointwise larger gas and a larger starting fee give a pointwise larger trajectory. */
  lemma {:induction false} TrajectoryMonotone(fee: int, fee': int, gas: seq<nat>, gas': seq<nat>)
    requires 0 <= fee <= fee' && |gas| == |gas'|
    requires forall i :: 0 <= i < |gas| ==> gas[i] <= gas'[i]
    ensures 0 <= FeeAfter(fee, gas) <= FeeAfter(fee', gas')
  {
    if gas != [] {
      var n := |gas| - 1;
      TrajectoryMonotone(fee, fee', gas[..n], gas'[..n]);
      BlockMonotone(FeeAfter(fee, gas[..n]), FeeAfter(fee', gas'[..n]), gas[n], gas'[n]);
    }
  }
}
