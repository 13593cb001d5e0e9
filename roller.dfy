/** The roll evaluator: roll_and_print_once, roll_and_print and the repeat
    loop of main. The random engine is replaced by the stream of values its
    distribution yields: every method takes the draws still to come and
    returns those it left unused. What the program writes to std::cout is
    returned as a string. */
module DiceRoller {
  import opened Numbers
  import opened DiceTypes
  import opened Sorting
  import opened RollDisplay

  /** What the evaluator needs of a RollInfo: a distribution over [1, dieSides]
      whose bounds an int holds, a keep count within the rolls, and a modifier
      that is an int. */
  predicate Rollable(info: RollInfo) {
    && 1 <= info.dieSides <= IntMax
    && (info.discardMode != KeepAll ==> info.diceToKeep <= info.dieCount)
    && IntMin <= info.modifierAfterDice <= IntMax
  }

  /** Values a distribution over [1, sides] can yield. */
  predicate ValidDraws(draws: seq<int>, sides: nat) {
    forall i :: 0 <= i < |draws| ==> 1 <= draws[i] <= sides
  }

  function Sum(s: seq<int>): int {
    if s == [] then 0 else s[0] + Sum(s[1..])
  }

  /** std::accumulate(first, last, init) with an int `init`: the running
      total is an int, so every addition is converted back to an int. The
      result is the exact sum of the range and `init`, wrapped once. */
  function Accumulate(s: seq<int>, init: int): (r: int)
    requires IntMin <= init <= IntMax
    ensures r == ToInt(init + Sum(s))
  {
    if s == [] then init
    else
      WrapThenAdd(init + s[0], Sum(s[1..]));
      Accumulate(s[1..], ToInt(init + s[0]))
  }

  /** How many of the arranged rolls are summed, and shown without parentheses. */
  function KeptCount(info: RollInfo): nat {
    if info.discardMode == KeepAll then info.dieCount else info.diceToKeep
  }

  /** The rolls vector once the switch on the discard mode has run: as drawn
      for keep-all, sorted in descending order for keep-high and in ascending
      order for keep-low. */
  function Arranged(rolls: seq<int>, mode: DiscardMode): (r: seq<int>)
    ensures |r| == |rolls|
    ensures multiset(r) == multiset(rolls)
    ensures mode == KeepAll ==> r == rolls
    ensures mode == KeepHigh ==> Ordered(r, true)
    ensures mode == KeepLow ==> Ordered(r, false)
  {
    match mode
    case KeepAll => rolls
    case KeepHigh => Sort(rolls, true)
    case KeepLow => Sort(rolls, false)
  }

  /** The rolls that count towards the total. */
  function Kept(info: RollInfo, rolls: seq<int>): seq<int>
    requires Rollable(info) && |rolls| == info.dieCount
  {
    Arranged(rolls, info.discardMode)[..KeptCount(info)]
  }

  /** The value roll_and_print_once returns for the rolls `rolls`: the sum
      of the kept rolls as the int accumulator leaves it, plus the modifier. */
  function OnceTotal(info: RollInfo, rolls: seq<int>): (r: int)
    requires Rollable(info) && |rolls| == info.dieCount
    ensures r == ToInt(Sum(Kept(info, rolls))) + info.modifierAfterDice
  {
    Accumulate(Kept(info, rolls), 0) + info.modifierAfterDice
  }

  /** What roll_and_print_once writes for the rolls `rolls`: the arranged
      rolls as print_roll_vector shows them; then ` + ` and the modifier,
      only when there is one (a negative one shows its own minus sign, as in
      ` + -2`); and at the end of the line the total (`OnceMiddle`). */
  function OnceText(info: RollInfo, rolls: seq<int>): (r: string)
    requires Rollable(info) && |rolls| == info.dieCount
    ensures var shown := RollVectorText(Arranged(rolls, info.discardMode), KeptCount(info));
            var tail := " = " + IntText(OnceTotal(info, rolls)) + "\n";
            |shown| + |tail| <= |r| && r[..|shown|] == shown && r[|r| - |tail|..] == tail
  {
    var shown := RollVectorText(Arranged(rolls, info.discardMode), KeptCount(info));
    var modifier := if info.modifierAfterDice != 0 then " + " + IntText(info.modifierAfterDice) else "";
    var tail := " = " + IntText(OnceTotal(info, rolls)) + "\n";
    Framed(shown, modifier, tail);
    shown + modifier + tail
  }

  /** Between the shown rolls and the total, the line of roll_and_print_once
      holds nothing when the modifier is 0, and otherwise ` + ` and the
      modifier's text. */
  lemma OnceMiddle(info: RollInfo, rolls: seq<int>)
    requires Rollable(info) && |rolls| == info.dieCount
    ensures var r := OnceText(info, rolls);
            var shown := RollVectorText(Arranged(rolls, info.discardMode), KeptCount(info));
            var tail := " = " + IntText(OnceTotal(info, rolls)) + "\n";
            |shown| + |tail| <= |r| &&
            if info.modifierAfterDice == 0 then |r| == |shown| + |tail|
            else r[|shown|..|r| - |tail|] == " + " + IntText(info.modifierAfterDice)
  {
    var shown := RollVectorText(Arranged(rolls, info.discardMode), KeptCount(info));
    var modifier := if info.modifierAfterDice != 0 then " + " + IntText(info.modifierAfterDice) else "";
    Framed(shown, modifier, " = " + IntText(OnceTotal(info, rolls)) + "\n");
  }

  /** roll_and_print_once: one die per draw, pushed in order, then arranged,
      summed and shown. */
  method RollOnce(info: RollInfo, draws: seq<int>) returns (total: int, out: string, rest: seq<int>)
    requires Rollable(info) && |draws| >= info.dieCount
    ensures total == OnceTotal(info, draws[..info.dieCount])
    ensures out == OnceText(info, draws[..info.dieCount])
    ensures rest == draws[info.dieCount..]
  {
    var rolls: seq<int> := [];
    for i := 0 to info.dieCount
      invariant rolls == draws[..i]
    {
      rolls := rolls + [draws[i]];
    }
    var diceToKeep := info.diceToKeep;
    match info.discardMode {
      case KeepAll => diceToKeep := info.dieCount;
      case KeepHigh => rolls := Sort(rolls, true);
      case KeepLow => rolls := Sort(rolls, false);
    }
    total := Accumulate(rolls[..diceToKeep], 0);
    total := total + info.modifierAfterDice;
    out := PrintRollVector(rolls, diceToKeep);
    var modifier := "";
    if info.modifierAfterDice != 0 {
      modifier := " + " + IntText(info.modifierAfterDice);
    }
    out := out + modifier + (" = " + IntText(total) + "\n");
    rest := draws[info.dieCount..];
  }

  /** The number of draws one call of roll_and_print uses. */
  function PerRoll(info: RollInfo): nat {
    if info.advantageFactor == NoAdvantage then info.dieCount else 2 * info.dieCount
  }

  function Max(a: int, b: int): int {
    if a < b then b else a
  }

  function Min(a: int, b: int): int {
    if b < a then b else a
  }

  /** The value roll_and_print returns: one once-total, or the larger of two
      with advantage and the smaller of two with disadvantage. */
  function RollTotal(info: RollInfo, draws: seq<int>): (r: int)
    requires Rollable(info) && |draws| == PerRoll(info)
    ensures info.advantageFactor == NoAdvantage ==> r == OnceTotal(info, draws)
    ensures info.advantageFactor != NoAdvantage ==>
              var first, second := OnceTotal(info, draws[..info.dieCount]), OnceTotal(info, draws[info.dieCount..]);
              && (r == first || r == second)
              && (info.advantageFactor == Advantage ==> r >= first && r >= second)
              && (info.advantageFactor == Disadvantage ==> r <= first && r <= second)
  {
    match info.advantageFactor
    case NoAdvantage => OnceTotal(info, draws)
    case Advantage => Max(OnceTotal(info, draws[..info.dieCount]), OnceTotal(info, draws[info.dieCount..]))
    case Disadvantage => Min(OnceTotal(info, draws[..info.dieCount]), OnceTotal(info, draws[info.dieCount..]))
  }

  /** What roll_and_print writes. */
  function RollText(info: RollInfo, draws: seq<int>): string
    requires Rollable(info) && |draws| == PerRoll(info)
  {
    var count := info.dieCount;
    match info.advantageFactor
    case NoAdvantage => OnceText(info, draws)
    case Advantage =>
      OnceText(info, draws[..count]) + OnceText(info, draws[count..])
        + "Rolled with advantage, final result: " + IntText(RollTotal(info, draws)) + "\n"
    case Disadvantage =>
      OnceText(info, draws[..count]) + OnceText(info, draws[count..])
        + "Rolled with disadvantage, final result: " + IntText(RollTotal(info, draws)) + "\n"
  }

  /** roll_and_print: one once-roll, and a second one with advantage or
      disadvantage, of which std::max or std::min picks the result. */
  method Roll(info: RollInfo, draws: seq<int>) returns (total: int, out: string, rest: seq<int>)
    requires Rollable(info) && |draws| >= PerRoll(info)
    ensures total == RollTotal(info, draws[..PerRoll(info)])
    ensures out == RollText(info, draws[..PerRoll(info)])
    ensures rest == draws[PerRoll(info)..]
  {
    ghost var used := draws[..PerRoll(info)];
    ghost var count := info.dieCount;
    total, out, rest := RollOnce(info, draws);
    match info.advantageFactor {
      case NoAdvantage =>
        assert used == draws[..count];
      case Advantage =>
        assert used[..count] == draws[..count] && used[count..] == rest[..count];
        ghost var first := out;
        assert first == OnceText(info, used[..count]);
        var second, text;
        second, text, rest := RollOnce(info, rest);
        assert text == OnceText(info, used[count..]);
        out := out + text;
        total := Max(total, second);
        assert total == RollTotal(info, used);
        out := out + "Rolled with advantage, final result: " + IntText(total) + "\n";
      case Disadvantage =>
        assert used[..count] == draws[..count] && used[count..] == rest[..count];
        ghost var first := out;
        assert first == OnceText(info, used[..count]);
        var second, text;
        second, text, rest := RollOnce(info, rest);
        assert text == OnceText(info, used[count..]);
        out := out + text;
        total := Min(total, second);
        assert total == RollTotal(info, used);
        out := out + "Rolled with disadvantage, final result: " + IntText(total) + "\n";
    }
  }

  /** How many times main calls roll_and_print: once, plus once more for
      every repeat past the first. */
  function Times(repeats: nat): (n: nat)
    ensures n >= 1 && (repeats > 1 ==> n == repeats)
  {
    if repeats > 1 then repeats else 1
  }

  /** The number of draws `count` calls of roll_and_print use, one block of
      `perRoll` after the other (`count * perRoll`). */
  function Blocks(count: nat, perRoll: nat): nat {
    if count == 0 then 0 else Blocks(count - 1, perRoll) + perRoll
  }

  lemma {:induction false} BlocksMonotone(m: nat, n: nat, perRoll: nat)
    requires m <= n
    ensures Blocks(m, perRoll) <= Blocks(n, perRoll)
    decreases n
  {
    if m < n {
      BlocksMonotone(m, n - 1, perRoll);
    }
  }

  /** The draws left once `count` calls of roll_and_print have taken theirs. */
  function After(info: RollInfo, draws: seq<int>, count: nat): (r: seq<int>)
    requires |draws| >= Blocks(count, PerRoll(info))
    ensures |r| == |draws| - Blocks(count, PerRoll(info))
  {
    if count == 0 then draws else After(info, draws, count - 1)[PerRoll(info)..]
  }

  /** The draws left after `count` calls are the draws past their blocks. */
  lemma {:induction false} AfterIsSuffix(info: RollInfo, draws: seq<int>, count: nat)
    requires |draws| >= Blocks(count, PerRoll(info))
    ensures After(info, draws, count) == draws[Blocks(count, PerRoll(info))..]
  {
    if count > 0 {
      AfterIsSuffix(info, draws, count - 1);
    }
  }

  /** The draws the call of roll_and_print numbered `k + 1` uses. */
  function Block(info: RollInfo, draws: seq<int>, k: nat): (r: seq<int>)
    requires |draws| >= Blocks(k + 1, PerRoll(info))
    ensures |r| == PerRoll(info)
  {
    After(info, draws, k)[..PerRoll(info)]
  }

  /** The sum of the values of the first `count` calls of roll_and_print. */
  function Supertotal(info: RollInfo, draws: seq<int>, count: nat): int
    requires Rollable(info) && |draws| >= Blocks(count, PerRoll(info))
  {
    if count == 0 then 0
    else
      BlocksMonotone(count - 1, count, PerRoll(info));
      Supertotal(info, draws, count - 1) + RollTotal(info, Block(info, draws, count - 1))
  }

  /** The line main writes before the roll numbered `n` (counting from 1):
      the number in decimal digits between a fixed prefix and a colon. */
  function Announcement(n: nat): (r: string)
    ensures 18 < |r| && r[..16] == "Repeating roll #" && r[|r| - 2..] == ":\n"
    ensures AllDigits(r[16..|r| - 2]) && DecimalValue(r[16..|r| - 2]) == n
  {
    var r := "Repeating roll #" + NatText(n) + ":\n";
    assert r[16..|r| - 2] == NatText(n);
    r
  }

  /** What main writes before the call of roll_and_print numbered `k + 1`:
      nothing before the first, an announcement before every later one. */
  function Header(k: nat): string {
    if k == 0 then "" else Announcement(k + 1)
  }

  /** What main writes for the first `count` calls of roll_and_print. */
  function Transcript(info: RollInfo, draws: seq<int>, count: nat): string
    requires Rollable(info) && |draws| >= Blocks(count, PerRoll(info))
    decreases count, 1
  {
    if count == 0 then "" else Extended(info, draws, count - 1)
  }

  /** What main has written once the call of roll_and_print numbered
      `k + 1` is done: the transcript before it, the announcement and the
      text of the call. */
  function Extended(info: RollInfo, draws: seq<int>, k: nat): string
    requires Rollable(info) && |draws| >= Blocks(k + 1, PerRoll(info))
    decreases k + 1, 0
  {
    BlocksMonotone(k, k + 1, PerRoll(info));
    Transcript(info, draws, k) + Header(k) + RollText(info, Block(info, draws, k))
  }

  /** The number of draws main uses for one command. */
  function Needed(info: RollInfo): nat {
    Blocks(Times(info.repeats), PerRoll(info))
  }

  /** The sum main computes for one command. */
  function RepeatTotal(info: RollInfo, draws: seq<int>): int
    requires Rollable(info) && |draws| >= Needed(info)
  {
    Supertotal(info, draws, Times(info.repeats))
  }

  /** What main writes for one command. */
  function RepeatText(info: RollInfo, draws: seq<int>): string
    requires Rollable(info) && |draws| >= Needed(info)
  {
    var rolls := Transcript(info, draws, Times(info.repeats));
    if info.repeats > 1 then rolls + "Sum of all rolls: " + IntText(RepeatTotal(info, draws)) + "\n"
    else rolls
  }

  /** The OK branch of main: roll_and_print once, then once per further
      repeat, adding up the values. */
  method RollRepeatedly(info: RollInfo, draws: seq<int>) returns (supertotal: int, out: string, rest: seq<int>)
    requires Rollable(info) && |draws| >= Needed(info)
    ensures supertotal == RepeatTotal(info, draws)
    ensures out == RepeatText(info, draws)
    ensures rest == draws[Needed(info)..]
  {
    ghost var p, times := PerRoll(info), Times(info.repeats);
    BlocksMonotone(1, times, p);
    supertotal, out, rest := Roll(info, draws);
    FirstRoll(info, draws, supertotal, out, rest);
    if info.repeats > 1 {
      supertotal, out, rest := RepeatLoop(info, draws, 1, supertotal, out, rest);
      out := out + "Sum of all rolls: " + IntText(supertotal) + "\n";
    }
    AfterIsSuffix(info, draws, times);
  }

  /** The loop of main, from the point where `done` calls of roll_and_print
      are made: the calls numbered `done + 1` to `info.repeats`, each
      announced, their values added to `supertotal`. */
  method RepeatLoop(info: RollInfo, ghost draws: seq<int>, done: nat, supertotal0: int, out0: string, rest0: seq<int>)
    returns (supertotal: int, out: string, rest: seq<int>)
    requires Rollable(info) && 1 <= done <= info.repeats && |draws| >= Blocks(info.repeats, PerRoll(info))
    requires |draws| >= Blocks(done, PerRoll(info))
    requires supertotal0 == Supertotal(info, draws, done)
    requires out0 == Transcript(info, draws, done)
    requires rest0 == After(info, draws, done)
    ensures supertotal == Supertotal(info, draws, info.repeats)
    ensures out == Transcript(info, draws, info.repeats)
    ensures rest == After(info, draws, info.repeats)
  {
    supertotal, out, rest := supertotal0, out0, rest0;
    for i := done to info.repeats
      invariant |draws| >= Blocks(i, PerRoll(info))
      invariant rest == After(info, draws, i)
      invariant supertotal == Supertotal(info, draws, i)
      invariant out == Transcript(info, draws, i)
    {
      BlocksMonotone(i + 1, info.repeats, PerRoll(info));
      supertotal, out, rest := RepeatRoll(info, draws, i, supertotal, out, rest);
    }
  }

  /** One pass of main's loop: announce the call of roll_and_print numbered
      `i + 1`, make it, add its value. */
  method RepeatRoll(info: RollInfo, ghost draws: seq<int>, i: nat, supertotal0: int, out0: string, rest0: seq<int>)
    returns (supertotal: int, out: string, rest: seq<int>)
    requires Rollable(info) && i >= 1 && |draws| >= Blocks(i + 1, PerRoll(info))
    requires supertotal0 == Supertotal(info, draws, i)
    requires out0 == Transcript(info, draws, i)
    requires rest0 == After(info, draws, i)
    ensures supertotal == Supertotal(info, draws, i + 1)
    ensures out == Transcript(info, draws, i + 1)
    ensures rest == After(info, draws, i + 1)
  {
    out := out0 + Announcement(i + 1);
    var total, text;
    total, text, rest := Roll(info, rest0);
    supertotal := supertotal0 + total;
    out := out + text;
    assert Block(info, draws, i) == rest0[..PerRoll(info)];
    TranscriptStep(info, draws, i);
  }

  /** The transcript of `i + 1` calls extends that of `i` calls by the
      announcement and the text of the last call. */
  lemma TranscriptStep(info: RollInfo, draws: seq<int>, i: nat)
    requires Rollable(info) && i >= 1 && |draws| >= Blocks(i + 1, PerRoll(info))
    ensures |draws| >= Blocks(i, PerRoll(info))
    ensures Transcript(info, draws, i + 1)
         == Transcript(info, draws, i) + Announcement(i + 1) + RollText(info, Block(info, draws, i))
  {
    BlocksMonotone(i, i + 1, PerRoll(info));
  }

  /** The first call of roll_and_print, with nothing written before it. */
  lemma FirstRoll(info: RollInfo, draws: seq<int>, total: int, out: string, rest: seq<int>)
    requires Rollable(info) && |draws| >= PerRoll(info)
    requires total == RollTotal(info, draws[..PerRoll(info)])
    requires out == RollText(info, draws[..PerRoll(info)])
    requires rest == draws[PerRoll(info)..]
    ensures |draws| >= Blocks(1, PerRoll(info))
    ensures total == Supertotal(info, draws, 1)
    ensures out == Transcript(info, draws, 1)
    ensures rest == After(info, draws, 1)
  {
    var p := PerRoll(info);
    assert Blocks(1, p) == p;
    assert After(info, draws, 0) == draws;
    var b := Block(info, draws, 0);
    assert b == draws[..p];
    assert Supertotal(info, draws, 1) == 0 + RollTotal(info, b);
    assert Extended(info, draws, 0) == "" + "" + RollText(info, b);
    assert "" + "" + out == out;
  }

  /** A command without repeats is one call of roll_and_print: its value and
      its text, nothing announced and no sum line. */
  lemma RepeatsAtMostOnce(info: RollInfo, draws: seq<int>)
    requires Rollable(info) && info.repeats <= 1 && |draws| >= PerRoll(info)
    ensures Needed(info) == PerRoll(info)
    ensures RepeatTotal(info, draws) == RollTotal(info, draws[..PerRoll(info)])
    ensures RepeatText(info, draws) == RollText(info, draws[..PerRoll(info)])
  {
    var once := RollText(info, draws[..PerRoll(info)]);
    assert Times(info.repeats) == 1;
    assert Block(info, draws, 0) == draws[..PerRoll(info)];
    assert Supertotal(info, draws, 1) == RollTotal(info, draws[..PerRoll(info)]);
    assert Transcript(info, draws, 1) == Extended(info, draws, 0);
    assert Extended(info, draws, 0) == "" + "" + once;
    assert "" + "" + once == once;
  }
}
