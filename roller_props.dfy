/** What roll_and_print_once computes: the kept rolls are the largest or
    smallest ones, and with dice small enough for an int the total is the
    plain sum of the kept rolls plus the modifier. */
module RollProperties {
  import opened Numbers
  import opened DiceTypes
  import opened Sorting
  import opened DiceRoller

  /** Rolls of a die with `sides` faces add up to between one and `sides`
      per roll. */
  lemma {:induction false} SumBounds(s: seq<int>, sides: nat)
    requires ValidDraws(s, sides)
    ensures |s| <= Sum(s) <= |s| * sides
    decreases |s|
  {
    if s != [] {
      SumBounds(s[1..], sides);
    }
  }

  /** Arranging the rolls keeps them within the faces of the die. */
  lemma ArrangedValid(rolls: seq<int>, mode: DiscardMode, sides: nat)
    requires ValidDraws(rolls, sides)
    ensures ValidDraws(Arranged(rolls, mode), sides)
  {
    var a := Arranged(rolls, mode);
    forall i | 0 <= i < |a|
      ensures 1 <= a[i] <= sides
    {
      assert a[i] in multiset(rolls);
    }
  }

  /** With at most INT_MAX pips on all the dice together, the int
      accumulator never wraps: the once-total is the sum of the kept rolls
      plus the modifier, and lies between one and `dieSides` per kept roll
      (plus the modifier). */
  lemma OnceTotalExact(info: RollInfo, rolls: seq<int>)
    requires Rollable(info) && |rolls| == info.dieCount
    requires ValidDraws(rolls, info.dieSides)
    requires info.dieCount * info.dieSides <= IntMax
    ensures OnceTotal(info, rolls) == Sum(Kept(info, rolls)) + info.modifierAfterDice
    ensures KeptCount(info) <= OnceTotal(info, rolls) - info.modifierAfterDice
                             <= KeptCount(info) * info.dieSides
  {
    var a, sides, k := Arranged(rolls, info.discardMode), info.dieSides, KeptCount(info);
    var kept := a[..k];
    ArrangedValid(rolls, info.discardMode, sides);
    SumBounds(a, sides);
    PrefixSum(a, k, sides);
    assert ValidDraws(kept, sides);
    SumBounds(kept, sides);
    assert ToInt(Sum(kept)) == Sum(kept);
  }

  /** Discarding rolls never raises their sum: a prefix of the rolls adds up
      to at most all of them. */
  lemma {:induction false} PrefixSum(s: seq<int>, k: nat, sides: nat)
    requires k <= |s| && ValidDraws(s, sides)
    ensures Sum(s[..k]) <= Sum(s)
    decreases k
  {
    if k == 0 {
      SumBounds(s, sides);
    } else {
      assert s[..k][0] == s[0] && s[..k][1..] == s[1..][..k - 1];
      PrefixSum(s[1..], k - 1, sides);
    }
  }

  /** Keeping one more die adds the next roll in the arranged order, and
      since every roll shows at least one pip the total strictly grows:
      for keep-high, `sum(kh, K) < sum(kh, K + 1)`. */
  lemma KeepingOneMore(info: RollInfo, rolls: seq<int>, k: nat)
    requires Rollable(info) && |rolls| == info.dieCount && info.discardMode != KeepAll
    requires k + 1 <= info.dieCount
    requires ValidDraws(rolls, info.dieSides) && info.dieCount * info.dieSides <= IntMax
    ensures OnceTotal(info.(diceToKeep := k + 1), rolls) ==
              OnceTotal(info.(diceToKeep := k), rolls) + Arranged(rolls, info.discardMode)[k]
    ensures OnceTotal(info.(diceToKeep := k), rolls) < OnceTotal(info.(diceToKeep := k + 1), rolls)
  {
    var lo, hi := info.(diceToKeep := k), info.(diceToKeep := k + 1);
    var a := Arranged(rolls, info.discardMode);
    OnceTotalExact(lo, rolls);
    OnceTotalExact(hi, rolls);
    assert Kept(hi, rolls) == a[..k] + [a[k]];
    SumAppend(a[..k], a[k]);
    ArrangedValid(rolls, info.discardMode, info.dieSides);
  }

  /** Adding a roll at the end adds its value. */
  lemma {:induction false} SumAppend(s: seq<int>, x: int)
    ensures Sum(s + [x]) == Sum(s) + x
    decreases |s|
  {
    if s != [] {
      assert (s + [x])[1..] == s[1..] + [x];
      SumAppend(s[1..], x);
    }
  }

  /** Keep-high keeps the largest rolls and keep-low the smallest: every
      kept roll is at least (at most) every discarded one, and the kept and
      discarded rolls together are exactly the rolls drawn. */
  lemma KeptAreExtreme(info: RollInfo, rolls: seq<int>)
    requires Rollable(info) && |rolls| == info.dieCount
    ensures var a, k := Arranged(rolls, info.discardMode), KeptCount(info);
            && k <= |a|
            && Kept(info, rolls) == a[..k]
            && multiset(a[..k]) + multiset(a[k..]) == multiset(rolls)
            && (info.discardMode == KeepHigh ==>
                  forall i, j :: 0 <= i < k <= j < |a| ==> a[i] >= a[j])
            && (info.discardMode == KeepLow ==>
                  forall i, j :: 0 <= i < k <= j < |a| ==> a[i] <= a[j])
  {
    var a, k := Arranged(rolls, info.discardMode), KeptCount(info);
    assert a == a[..k] + a[k..];
  }

  /** The kept rolls do not depend on the sorting algorithm: any ordering of
      the drawn values in the direction the mode asks for gives the same
      kept prefix. */
  lemma KeptIndependentOfSort(info: RollInfo, rolls: seq<int>, sorted: seq<int>)
    requires Rollable(info) && |rolls| == info.dieCount && info.discardMode != KeepAll
    requires multiset(sorted) == multiset(rolls)
    requires Ordered(sorted, info.discardMode == KeepHigh)
    ensures |sorted| == |rolls|
    ensures Kept(info, rolls) == sorted[..info.diceToKeep]
  {
    assert |sorted| == |multiset(sorted)| == |rolls|;
    SortedPermutationUnique(Arranged(rolls, info.discardMode), sorted, info.discardMode == KeepHigh);
  }

  /** The least and the greatest value one call of roll_and_print can
      return when the accumulator cannot wrap. */
  function Lowest(info: RollInfo): int {
    KeptCount(info) + info.modifierAfterDice
  }

  function Highest(info: RollInfo): int {
    KeptCount(info) * info.dieSides + info.modifierAfterDice
  }

  /** One call of roll_and_print, with or without advantage, returns a value
      between the lowest and the highest once-total. */
  lemma RollTotalBounds(info: RollInfo, draws: seq<int>)
    requires Rollable(info) && |draws| == PerRoll(info)
    requires ValidDraws(draws, info.dieSides) && info.dieCount * info.dieSides <= IntMax
    ensures Lowest(info) <= RollTotal(info, draws) <= Highest(info)
  {
    if info.advantageFactor == NoAdvantage {
      OnceTotalExact(info, draws);
    } else {
      var count := info.dieCount;
      assert ValidDraws(draws[..count], info.dieSides);
      assert ValidDraws(draws[count..], info.dieSides);
      OnceTotalExact(info, draws[..count]);
      OnceTotalExact(info, draws[count..]);
    }
  }

  /** `n` times `v`, added up one at a time as main adds up its rolls. */
  function Multiple(n: nat, v: int): (r: int)
    ensures r == n * v
  {
    if n == 0 then 0 else Multiple(n - 1, v) + v
  }

  /** main's sum of `count` calls of roll_and_print lies between `count`
      lowest and `count` highest once-totals: with `repeats` of 0 or 1 and
      no modifier, `XdY` totals between X and X*Y. */
  lemma {:induction false} SupertotalBounds(info: RollInfo, draws: seq<int>, count: nat)
    requires Rollable(info) && |draws| >= Blocks(count, PerRoll(info))
    requires ValidDraws(draws, info.dieSides) && info.dieCount * info.dieSides <= IntMax
    ensures Multiple(count, Lowest(info)) <= Supertotal(info, draws, count) <= Multiple(count, Highest(info))
    decreases count
  {
    if count > 0 {
      BlocksMonotone(count - 1, count, PerRoll(info));
      SupertotalBounds(info, draws, count - 1);
      BlockValid(info, draws, count - 1);
      RollTotalBounds(info, Block(info, draws, count - 1));
    }
  }

  /** Every block of draws a call of roll_and_print uses is a run of valid draws. */
  lemma BlockValid(info: RollInfo, draws: seq<int>, k: nat)
    requires |draws| >= Blocks(k + 1, PerRoll(info)) && ValidDraws(draws, info.dieSides)
    ensures ValidDraws(Block(info, draws, k), info.dieSides)
  {
    var block := Block(info, draws, k);
    BlocksMonotone(k, k + 1, PerRoll(info));
    AfterIsSuffix(info, draws, k);
    var start := Blocks(k, PerRoll(info));
    forall i | 0 <= i < |block|
      ensures 1 <= block[i] <= info.dieSides
    {
      assert block[i] == draws[start + i];
    }
  }
}
