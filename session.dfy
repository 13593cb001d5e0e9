/** The OK branch of main, where a freshly made RollInfo that parseInput
    filled is handed to the evaluator, and whole commands worked through
    from the token to the text written. */
module Session {
  import opened Numbers
  import opened DiceTypes
  import opened DiceParser
  import opened ParseProperties
  import opened Sorting
  import opened RollDisplay
  import opened DiceRoller

  /** What parseInput leaves in a fresh RollInfo when it returns OK is what
      the evaluator needs, as soon as the die has between 1 and INT_MAX
      sides (which the parser does not check). */
  lemma ParsedRollable(s: string, info: RollInfo)
    requires IsToken(s) && Parse(s, DefaultRollInfo) == Returned(Ok, info)
    requires 1 <= info.dieSides <= IntMax
    ensures Rollable(info)
  {
    assert Consistent(DefaultRollInfo);
  }

  /** `3d6+2` rolled as 4, 2 and 5: the command parses to three six-sided
      dice and a modifier of 2, the total is 13, and the line shows the
      three rolls, the modifier and the total. */
  lemma ThreeDiceRolled()
    ensures var info := RollInfo(3, 6, SizeMax, 1, 2, NoAdvantage, KeepAll);
            && Parse("3d6+2", DefaultRollInfo) == Returned(Ok, info)
            && Rollable(info) && Needed(info) == 3
            && RepeatTotal(info, [4, 2, 5]) == 13
            && RepeatText(info, [4, 2, 5]) == "[ 4 2 5 ] + 2 = 13\n"
  {
    var info := RollInfo(3, 6, SizeMax, 1, 2, NoAdvantage, KeepAll);
    var draws := [4, 2, 5];
    RaisedParsed();
    RepeatsAtMostOnce(info, draws);
    assert draws[..3] == draws;
    ThreeDiceOnce(info, draws);
  }

  /** `3d6-2` rolled as 4, 2 and 5: the total is 9, and the negative
      modifier is written after ` + ` with its own minus sign. */
  lemma ThreeDiceLowered()
    ensures var info := RollInfo(3, 6, SizeMax, 1, -2, NoAdvantage, KeepAll);
            && Parse("3d6-2", DefaultRollInfo) == Returned(Ok, info)
            && Rollable(info) && Needed(info) == 3
            && RepeatTotal(info, [4, 2, 5]) == 9
            && RepeatText(info, [4, 2, 5]) == "[ 4 2 5 ] + -2 = 9\n"
  {
    var info := RollInfo(3, 6, SizeMax, 1, -2, NoAdvantage, KeepAll);
    var draws := [4, 2, 5];
    LoweredParsed();
    RepeatsAtMostOnce(info, draws);
    assert draws[..3] == draws;
    ThreeDiceLoweredOnce(info, draws);
  }

  /** `d6` rolled as 3: one die, no modifier, so nothing is written between
      the rolls and the total. */
  lemma OneDieRolled()
    ensures var info := RollInfo(1, 6, SizeMax, 1, 0, NoAdvantage, KeepAll);
            && Parse("d6", DefaultRollInfo) == Returned(Ok, info)
            && Rollable(info) && Needed(info) == 1
            && RepeatTotal(info, [3]) == 3
            && RepeatText(info, [3]) == "[ 3 ] = 3\n"
  {
    var info := RollInfo(1, 6, SizeMax, 1, 0, NoAdvantage, KeepAll);
    var draws := [3];
    assert NatText(6) == "6";
    SidesThenOptions(6, "", DefaultRollInfo);
    assert "d" + NatText(6) + "" == "d6";
    RepeatsAtMostOnce(info, draws);
    assert draws[..1] == draws;
    OneDieOnce(info, draws);
  }

  lemma OneDieOnce(info: RollInfo, draws: seq<int>)
    requires info == RollInfo(1, 6, SizeMax, 1, 0, NoAdvantage, KeepAll) && draws == [3]
    ensures OnceTotal(info, draws) == 3
    ensures OnceText(info, draws) == "[ 3 ] = 3\n"
  {
    assert Kept(info, draws) == draws;
    assert Sum(draws) == 3 by {
      assert draws[1..] == [];
    }
    var p := Pieces(draws, 1);
    assert p[0] == "3 ";
    assert Concat(p) == "3 " by {
      assert p[1..] == [];
    }
    assert NatText(3) == "3";
  }

  /** The command `3d6+2`. */
  lemma RaisedParsed()
    ensures IsToken("3d6+2")
    ensures Parse("3d6+2", DefaultRollInfo) == Returned(Ok, RollInfo(3, 6, SizeMax, 1, 2, NoAdvantage, KeepAll))
  {
    CountSidesModifier(3, 6, '+', 2, DefaultRollInfo);
    ThreeDiceText('+');
  }

  /** The command `3d6-2`. */
  lemma LoweredParsed()
    ensures IsToken("3d6-2")
    ensures Parse("3d6-2", DefaultRollInfo) == Returned(Ok, RollInfo(3, 6, SizeMax, 1, -2, NoAdvantage, KeepAll))
  {
    CountSidesModifier(3, 6, '-', 2, DefaultRollInfo);
    ThreeDiceText('-');
  }

  lemma ThreeDiceText(c: char)
    ensures NatText(3) + "d" + (NatText(6) + [c] + NatText(2)) == ['3', 'd', '6', c, '2']
  {
    assert NatText(3) == "3" && NatText(6) == "6" && NatText(2) == "2";
  }

  lemma ThreeDiceOnce(info: RollInfo, draws: seq<int>)
    requires info == RollInfo(3, 6, SizeMax, 1, 2, NoAdvantage, KeepAll) && draws == [4, 2, 5]
    ensures OnceTotal(info, draws) == 13
    ensures OnceText(info, draws) == "[ 4 2 5 ] + 2 = 13\n"
  {
    assert Kept(info, draws) == draws;
    SumOfThree(4, 2, 5);
    ThreeShown();
    TwoDigits(13);
  }

  lemma ThreeDiceLoweredOnce(info: RollInfo, draws: seq<int>)
    requires info == RollInfo(3, 6, SizeMax, 1, -2, NoAdvantage, KeepAll) && draws == [4, 2, 5]
    ensures OnceTotal(info, draws) == 9
    ensures OnceText(info, draws) == "[ 4 2 5 ] + -2 = 9\n"
  {
    assert Kept(info, draws) == draws;
    SumOfThree(4, 2, 5);
    ThreeShown();
    assert NatText(2) == "2" && NatText(9) == "9";
  }

  /** The rolls 4, 2 and 5, none discarded, as print_roll_vector shows them. */
  lemma ThreeShown()
    ensures RollVectorText([4, 2, 5], 3) == "[ 4 2 5 ]"
  {
    var p := Pieces([4, 2, 5], 3);
    assert p[0] == "4 " && p[1] == "2 " && p[2] == "5 ";
    assert Concat(p[2..]) == "5 " by {
      assert p[2..][1..] == [];
    }
    assert Concat(p[1..]) == "2 5 " by {
      assert p[1..][1..] == p[2..];
    }
  }

  lemma SumOfThree(a: int, b: int, c: int)
    ensures Sum([a, b, c]) == a + b + c
  {
    assert [c][1..] == [];
    assert Sum([c]) == c;
    assert [b, c][1..] == [c];
    assert Sum([b, c]) == b + c;
    assert [a, b, c][1..] == [b, c];
  }

  /** The rolls of `4d6kh3` once sorted, 6, 5, 4 and 1, with three kept, as
      print_roll_vector shows them: the discarded 1 in parentheses. */
  lemma FourShown()
    ensures RollVectorText([6, 5, 4, 1], 3) == "[ 6 5 4 (1) ]"
  {
    var p := Pieces([6, 5, 4, 1], 3);
    assert p[0] == "6 " && p[1] == "5 " && p[2] == "4 " && p[3] == "(1) ";
    assert Concat(p[3..]) == "(1) " by {
      assert p[3..][1..] == [];
    }
    assert Concat(p[2..]) == "4 (1) " by {
      assert p[2..][1..] == p[3..];
    }
    assert Concat(p[1..]) == "5 4 (1) " by {
      assert p[1..][1..] == p[2..];
    }
  }

  /** The text of a number with two decimal digits. */
  lemma TwoDigits(n: nat)
    requires 10 <= n < 100
    ensures IntText(n) == [DigitChar(n / 10), DigitChar(n % 10)]
  {
    assert NatText(n / 10) == [DigitChar(n / 10)];
  }
}
