/** How one pass of the option loop of parseInput classifies its input, and
    a few whole commands worked through. */
module ParseProperties {
  import opened Numbers
  import opened DiceTypes
  import opened DiceParser

  predicate Returns(r: Step, result: ParseResult) {
    r.Stop? && r.outcome.Returned? && r.outcome.result == result
  }

  /** Advantage and an explicit keep exclude each other. */
  predicate Limited(info: RollInfo) {
    info.advantageFactor != NoAdvantage || info.discardMode != KeepAll
  }

  /** A pass reports a malformed command exactly when the character it looks
      at is none of `a`, `k`, `r`, `+`, `-`, and then leaves the record as it was. */
  lemma StepMalformed(s: string, pos: nat, info: RollInfo)
    requires pos < |s|
    ensures Returns(ScanStep(s, pos, info), MalformedCommand) <==> s[pos] !in AfterSides
    ensures s[pos] !in AfterSides ==> ScanStep(s, pos, info) == Stop(Returned(MalformedCommand, info))
  {
  }

  /** A pass reports a conflict exactly when it meets an `a` or a `k` while
      advantage or an explicit keep is already in force. */
  lemma StepConflict(s: string, pos: nat, info: RollInfo)
    requires pos < |s|
    ensures Returns(ScanStep(s, pos, info), Conflict) <==> (s[pos] == 'a' || s[pos] == 'k') && Limited(info)
  {
  }

  /** No digit follows the optional sign at position `i`: there is no
      number for std::stoul or std::stol to read there. */
  predicate NoNumberAt(s: string, i: nat)
    requires i <= |s|
  {
    var j := i + SignLength(s, i);
    j == |s| || !IsDigit(s[j])
  }

  lemma NoNumberConversions(s: string, i: nat)
    requires i <= |s|
    ensures Stoul(s, i).InvalidArgument? <==> NoNumberAt(s, i)
    ensures Stol(s, i).InvalidArgument? <==> NoNumberAt(s, i)
  {
  }

  /** A pass reports an unparsable number exactly when the number its field
      needs is missing: after `r`, after the two characters of a keep, or
      after the sign of a modifier (`d6+` ends this way). */
  lemma StepUnparsable(s: string, pos: nat, info: RollInfo)
    requires pos < |s|
    ensures Returns(ScanStep(s, pos, info), UnparsableNumber) <==>
              || (s[pos] == 'r' && NoNumberAt(s, pos + 1))
              || ((s[pos] == '+' || s[pos] == '-') && NoNumberAt(s, pos))
              || (s[pos] == 'k' && !Limited(info) && pos + 2 <= |s| && NoNumberAt(s, pos + 2))
  {
    match s[pos]
    case 'r' => NoNumberConversions(s, pos + 1);
    case 'k' =>
      if !Limited(info) && pos + 2 <= |s| {
        NoNumberConversions(s, pos + 2);
      }
    case _ => NoNumberConversions(s, pos);
  }

  /** A character that starts no field, met where a consumed field leaves
      the scan, ends it with a malformed command and the record as that
      field left it. */
  lemma FieldThenStray(s: string, pos: nat, info: RollInfo, next: nat, info': RollInfo)
    requires pos < |s| && ScanStep(s, pos, info) == Continue(next, info')
    requires next < |s| && s[next] !in AfterSides
    ensures ScanOptions(s, pos, info) == Returned(MalformedCommand, info')
  {
    StepMalformed(s, next, info');
  }

  /** No digit after the 'd': the sides number is unparsable. */
  lemma SidesUnparsable(s: string, pos: nat, info: RollInfo)
    requires pos < |s| && NoNumberAt(s, pos + 1)
    ensures ScanSides(s, pos, info) == Returned(UnparsableNumber, info)
  {
    NoNumberConversions(s, pos + 1);
  }

  /** A command with something other than a number before its 'd' is
      unparsable, and the record is left as it was. */
  lemma CountUnparsable(s: string, init: RollInfo)
    requires IsToken(s) && s[0] != 'q' && s[0] != 'd' && 'd' in s && NoNumberAt(s, 0)
    ensures Parse(s, init) == Returned(UnparsableNumber, init)
  {
    NoNumberConversions(s, 0);
    var d := FindFirstOf(s, {'d'}, 0);
    assert d < |s| by {
      var j :| 0 <= j < |s| && s[j] == 'd';
    }
  }

  /** The `a` field: a `+` right after it selects advantage and anything
      else, the terminating null character included, disadvantage; the scan
      resumes at the next `a`, `d`, `k`, `r`, `+` or `-` two characters on. */
  lemma AdvantageField(s: string, pos: nat, info: RollInfo)
    requires pos < |s| && s[pos] == 'a' && !Limited(info)
    ensures ScanStep(s, pos, info).Continue?
    ensures ScanStep(s, pos, info).info.advantageFactor ==
              if pos + 1 < |s| && s[pos + 1] == '+' then Advantage else Disadvantage
    ensures ScanStep(s, pos, info).info == info.(advantageFactor := ScanStep(s, pos, info).info.advantageFactor)
    ensures ScanStep(s, pos, info).pos == FindFirstOf(s, AfterAdvantage, pos + 2)
  {
  }

  /** The `k` field with a number read: a count above the die count is
      dropped silently and leaves keep-all with nothing to keep; otherwise an
      `h` right after the `k` keeps the highest dice and anything else the
      lowest. Only the discard mode and the count change. */
  lemma KeepField(s: string, pos: nat, info: RollInfo, k: nat, n: nat)
    requires pos + 2 <= |s| && s[pos] == 'k' && !Limited(info)
    requires Stoul(s, pos + 2) == Converted(k, n)
    ensures ScanStep(s, pos, info).Continue?
    ensures ScanStep(s, pos, info).pos == pos + 2 + n
    ensures k > info.dieCount ==>
              ScanStep(s, pos, info).info == info.(discardMode := KeepAll, diceToKeep := 0)
    ensures k <= info.dieCount ==>
              && ScanStep(s, pos, info).info.diceToKeep == k
              && (ScanStep(s, pos, info).info.discardMode == KeepHigh <==> s[pos + 1] == 'h')
              && ScanStep(s, pos, info).info.discardMode != KeepAll
              && ScanStep(s, pos, info).info ==
                   info.(discardMode := ScanStep(s, pos, info).info.discardMode, diceToKeep := k)
  {
  }

  /** The `r` field with a number read: the number becomes the repeat
      count, nothing else in the record changes, and the scan goes on just
      past the number. */
  lemma RepeatField(s: string, pos: nat, info: RollInfo, q: nat, n: nat)
    requires pos < |s| && s[pos] == 'r' && Stoul(s, pos + 1) == Converted(q, n)
    ensures ScanStep(s, pos, info) == Continue(pos + 1 + n, info.(repeats := q))
  {
  }

  /** The `+`/`-` field with a number read: std::stol reads the sign with
      the digits, the long it yields is assigned to the int modifier, nothing
      else in the record changes, and the scan goes on just past the number. */
  lemma ModifierField(s: string, pos: nat, info: RollInfo, m: int, n: nat)
    requires pos < |s| && (s[pos] == '+' || s[pos] == '-') && Stol(s, pos) == Converted(m, n)
    ensures ScanStep(s, pos, info) == Continue(pos + n, info.(modifierAfterDice := ToInt(m)))
  {
  }

  /** A pass ends the program, with an exception nobody catches, exactly
      when a conversion meets a number out of range, or when a `k` is the
      last character so that `substr` starts past the end. */
  lemma StepTerminated(s: string, pos: nat, info: RollInfo)
    requires pos < |s|
    ensures ScanStep(s, pos, info) == Stop(Terminated) <==>
              || (s[pos] == 'r' && Stoul(s, pos + 1).OutOfRange?)
              || ((s[pos] == '+' || s[pos] == '-') && Stol(s, pos).OutOfRange?)
              || (s[pos] == 'k' && !Limited(info) && (|s| < pos + 2 || Stoul(s, pos + 2).OutOfRange?))
  {
  }

  /** A modifier replaces the one before it: what a `+`/`-` field yields
      does not depend on the record it starts from. */
  lemma ModifierOverwrites(s: string, pos: nat, info: RollInfo, other: RollInfo)
    requires pos < |s|
    ensures ModifierStep(s, pos, info).Continue? <==> ModifierStep(s, pos, other).Continue?
    ensures ModifierStep(s, pos, info).Continue? ==>
              ModifierStep(s, pos, info).pos == ModifierStep(s, pos, other).pos &&
              ModifierStep(s, pos, info).info.modifierAfterDice == ModifierStep(s, pos, other).info.modifierAfterDice
  {
  }

  /** find_first_of passes over characters it is not looking for. */
  lemma {:induction false} FindFirstOfSkips(s: string, chars: set<char>, from: nat, k: nat)
    requires from <= k <= |s|
    requires forall i :: from <= i < k ==> s[i] !in chars
    ensures FindFirstOf(s, chars, from) == FindFirstOf(s, chars, k)
    decreases k - from
  {
    if from < k {
      FindFirstOfSkips(s, chars, from + 1, k);
    }
  }

  /** A count written before the 'd' is read into dieCount, and the rest
      parses as the command that starts at the 'd' would with that count. */
  lemma ExplicitCount(c: nat, t: string, init: RollInfo)
    requires c <= ULongMax && IsToken("d" + t)
    ensures IsToken(NatText(c) + "d" + t)
    ensures Parse(NatText(c) + "d" + t, init) == Parse("d" + t, init.(dieCount := c))
  {
    var p, s1 := NatText(c), "d" + t;
    var s := p + s1;
    var info := init.(dieCount := c);
    assert s == NatText(c) + "d" + t;
    CountText(p, s1);
    StoulReadsNatText(c, s1);
    assert s[0] != 'q';
    assert Parse(s, init) == ScanSides(s, |p|, info);
    assert s[|p|..] == s1;
    ScanSidesSuffix(s, |p|, 0, info);
    StartsAtD(s1, info);
  }

  /** Digits and a command from its `d`: a token whose first `d` is the one
      after the digits. */
  lemma CountText(d: string, s1: string)
    requires |d| > 0 && AllDigits(d) && IsToken(s1) && s1[0] == 'd'
    ensures IsToken(d + s1) && (d + s1)[0] == d[0]
    ensures FindFirstOf(d + s1, {'d'}, 0) == |d|
  {
    var s := d + s1;
    forall i | 0 <= i < |s|
      ensures TokenChar(s[i])
    {
      if i < |d| {
        assert s[i] == d[i] && IsDigit(s[i]);
      } else {
        assert s[i] == s1[i - |d|];
      }
    }
    forall i | 0 <= i < |d|
      ensures s[i] !in {'d'}
    {
      assert s[i] == d[i] && IsDigit(s[i]);
    }
    FindFirstOfSkips(s, {'d'}, 0, |d|);
  }

  /** The count ends at its last digit and the character after it is passed
      over whatever it is: the sides are read from the character after that
      one, wherever the 'd' lies. */
  lemma CountSkipsOneCharacter(c: nat, x: char, t: string, init: RollInfo)
    requires c <= ULongMax && !IsDigit(x) && IsToken([x] + t) && 'd' in [x] + t
    ensures IsToken(NatText(c) + [x] + t)
    ensures Parse(NatText(c) + [x] + t, init) ==
              ScanSides(NatText(c) + [x] + t, |NatText(c)|, init.(dieCount := c))
  {
    var p, u := NatText(c), [x] + t;
    var s := p + u;
    assert s == NatText(c) + [x] + t;
    CountToken(p, u);
    StoulReadsNatText(c, u);
    assert s[0] != 'q';
  }

  /** Digits before a token that holds a 'd': the first 'd' lies past them. */
  lemma CountToken(d: string, u: string)
    requires |d| > 0 && AllDigits(d) && IsToken(u) && 'd' in u
    ensures IsToken(d + u) && (d + u)[0] == d[0]
    ensures |d| <= FindFirstOf(d + u, {'d'}, 0) < |d + u|
  {
    var s := d + u;
    forall i | 0 <= i < |s|
      ensures TokenChar(s[i])
    {
      if i < |d| {
        assert s[i] == d[i] && IsDigit(s[i]);
      } else {
        assert s[i] == u[i - |d|];
      }
    }
    forall i | 0 <= i < |d|
      ensures s[i] !in {'d'}
    {
      assert s[i] == d[i] && IsDigit(s[i]);
    }
    FindFirstOfSkips(s, {'d'}, 0, |d|);
    var j :| 0 <= j < |u| && u[j] == 'd';
    assert s[|d| + j] == 'd';
  }

  /** `XcYu` with any non-digit `c`: the count is X, the sides number is
      the Y after the skipped character, and the options are scanned in `u`;
      with `c` the 'd' this is the ordinary `XdY` command, and otherwise
      `3x5d6` is 3d5. */
  lemma SkippedCharacterThenSides(c: nat, x: char, y: nat, u: string, init: RollInfo)
    requires c <= ULongMax && y <= ULongMax && TokenChar(x) && !IsDigit(x)
    requires (u == [] || !IsDigit(u[0])) && (forall i :: 0 <= i < |u| ==> TokenChar(u[i]))
    requires x == 'd' || 'd' in u
    ensures IsToken(NatText(c) + [x] + NatText(y) + u)
    ensures Parse(NatText(c) + [x] + NatText(y) + u, init) ==
              ScanOptions(u, FindFirstOf(u, AfterSides, 0), init.(dieCount := c, dieSides := y))
  {
    var p, t := NatText(c), NatText(y) + u;
    SkippedText(x, NatText(y), u);
    CountSkipsOneCharacter(c, x, t, init);
    assert p + [x] + t == p + [x] + NatText(y) + u;
    SkippedSides(p, x, y, u, init.(dieCount := c));
  }

  /** The sides read past the character at `|p|`, from the text after it. */
  lemma SkippedSides(p: string, x: char, y: nat, u: string, info: RollInfo)
    requires y <= ULongMax && (u == [] || !IsDigit(u[0]))
    ensures ScanSides(p + [x] + NatText(y) + u, |p|, info) ==
              ScanOptions(u, FindFirstOf(u, AfterSides, 0), info.(dieSides := y))
  {
    var r := [x] + NatText(y) + u;
    assert p + [x] + NatText(y) + u == p + r;
    assert (p + r)[|p|..] == r;
    ScanSidesSuffix(p + r, |p|, 0, info);
    SidesAfter(x, y, u, info);
  }

  lemma SkippedText(x: char, d: string, u: string)
    requires TokenChar(x) && AllDigits(d) && (forall i :: 0 <= i < |u| ==> TokenChar(u[i]))
    requires x == 'd' || 'd' in u
    ensures [x] + (d + u) == [x] + d + u
    ensures IsToken([x] + (d + u)) && 'd' in [x] + (d + u)
  {
    SidesToken(x, d, u);
    var s := [x] + d + u;
    if x != 'd' {
      var j :| 0 <= j < |u| && u[j] == 'd';
      assert s[1 + |d| + j] == 'd';
    }
  }

  /** `XcdZ` with a non-digit `c` (the 'd' included): the sides are looked
      for at the 'd', which is no number, so the command is unparsable with
      the count already stored. */
  lemma SkippedCharacterBeforeD(c: nat, x: char, t: string, init: RollInfo)
    requires c <= ULongMax && TokenChar(x) && !IsDigit(x) && IsToken("d" + t)
    ensures IsToken(NatText(c) + [x] + "d" + t)
    ensures Parse(NatText(c) + [x] + "d" + t, init) == Returned(UnparsableNumber, init.(dieCount := c))
  {
    var p, u := NatText(c), [x] + "d" + t;
    var s := p + u;
    assert s == NatText(c) + [x] + ("d" + t) == NatText(c) + [x] + "d" + t;
    assert IsToken([x] + ("d" + t)) by {
      forall i | 0 <= i < |u|
        ensures TokenChar(u[i])
      {
        if i > 0 {
          assert u[i] == ("d" + t)[i - 1];
        }
      }
    }
    assert u[1] == 'd';
    CountSkipsOneCharacter(c, x, "d" + t, init);
    assert s[|p| + 1] == 'd';
    NoNumberConversions(s, |p| + 1);
  }

  /** `3x5d6` rolls three five-sided dice. */
  lemma CountThenStrayCharacter()
    ensures IsToken("3x5d6")
    ensures Parse("3x5d6", DefaultRollInfo) == Returned(Ok, DefaultRollInfo.(dieCount := 3, dieSides := 5))
  {
    SkippedCharacterThenSides(3, 'x', 5, "d6", DefaultRollInfo);
    assert NatText(3) + ['x'] + NatText(5) + "d6" == "3x5d6" by {
      assert NatText(3) == "3" && NatText(5) == "5";
    }
    assert FindFirstOf("d6", AfterSides, 0) == 2;
  }

  /** `3xd6` is an unparsable number: the sides are looked for at the 'd'. */
  lemma CountThenStrayBeforeD()
    ensures IsToken("3xd6")
    ensures Parse("3xd6", DefaultRollInfo) == Returned(UnparsableNumber, DefaultRollInfo.(dieCount := 3))
  {
    SkippedCharacterBeforeD(3, 'x', "6", DefaultRollInfo);
    assert NatText(3) + ['x'] + "d" + "6" == "3xd6" by {
      assert NatText(3) == "3";
    }
  }

  /** The sides number right after the 'd' is read into dieSides, and the
      options that follow it are scanned on their own. */
  lemma SidesThenOptions(y: nat, u: string, init: RollInfo)
    requires y <= ULongMax && (u == [] || !IsDigit(u[0]))
    requires forall i :: 0 <= i < |u| ==> TokenChar(u[i])
    ensures IsToken("d" + NatText(y) + u)
    ensures Parse("d" + NatText(y) + u, init) ==
              ScanOptions(u, FindFirstOf(u, AfterSides, 0), init.(dieSides := y))
  {
    var s := "d" + NatText(y) + u;
    SidesToken('d', NatText(y), u);
    StartsAtD(s, init);
    SidesAfter('d', y, u, init);
  }

  /** The sides number read after position 0, whatever character sits
      there, and the options scanned on their own. */
  lemma SidesAfter(x: char, y: nat, u: string, info: RollInfo)
    requires y <= ULongMax && (u == [] || !IsDigit(u[0]))
    ensures ScanSides([x] + NatText(y) + u, 0, info) ==
              ScanOptions(u, FindFirstOf(u, AfterSides, 0), info.(dieSides := y))
  {
    var p := [x] + NatText(y);
    var s := p + u;
    SidesNumber(x, y, u);
    assert s[|p|..] == u;
    SidesThenSuffix(s, |p|, y, |NatText(y)|, FindFirstOf(u, AfterSides, 0), info);
  }

  /** A sides number that converts, with the options scanned in the suffix
      they start in. */
  lemma SidesThenSuffix(s: string, k: nat, y: int, n: nat, first: nat, info: RollInfo)
    requires 1 <= k <= |s| && Stoul(s, 1) == Converted(y, n)
    requires FindFirstOf(s, AfterSides, 1) == k + first
    ensures ScanSides(s, 0, info) == ScanOptions(s[k..], first, info.(dieSides := y))
  {
    ScanOptionsSuffix(s, k, first, info.(dieSides := y));
  }

  /** A command that starts with its 'd' goes straight to the sides number. */
  lemma StartsAtD(s: string, init: RollInfo)
    requires IsToken(s) && s[0] == 'd'
    ensures Parse(s, init) == ScanSides(s, 0, init)
  {
    assert FindFirstOf(s, {'d'}, 0) == 0;
  }

  /** After the 'd', the sides number is read and the scan for options
      passes over its digits. */
  lemma SidesNumber(x: char, y: nat, u: string)
    requires y <= ULongMax && (u == [] || !IsDigit(u[0]))
    ensures var p := [x] + NatText(y);
            && Stoul(p + u, 1) == Converted(y, |NatText(y)|)
            && FindFirstOf(p + u, AfterSides, 1) == |p| + FindFirstOf(u, AfterSides, 0)
  {
    var d := NatText(y);
    var p := [x] + d;
    var s := p + u;
    assert s[1..] == d + u;
    StoulSuffix(s, 1, 0);
    StoulReadsNatText(y, u);
    DigitsSkipped(x, d, u);
  }

  lemma DigitsSkipped(x: char, d: string, u: string)
    requires AllDigits(d)
    ensures FindFirstOf([x] + d + u, AfterSides, 1) == 1 + |d| + FindFirstOf(u, AfterSides, 0)
  {
    var p := [x] + d;
    var s := p + u;
    forall i | 1 <= i < |p|
      ensures s[i] !in AfterSides
    {
      assert s[i] == d[i - 1] && IsDigit(d[i - 1]);
    }
    FindFirstOfSkips(s, AfterSides, 1, |p|);
    assert s[|p|..] == u;
    FindFirstOfSuffix(s, |p|, AfterSides, 0);
  }

  lemma SidesToken(x: char, d: string, u: string)
    requires TokenChar(x) && AllDigits(d)
    requires forall i :: 0 <= i < |u| ==> TokenChar(u[i])
    ensures IsToken([x] + d + u)
  {
    var s := [x] + d + u;
    forall i | 0 <= i < |s|
      ensures TokenChar(s[i])
    {
      if 1 <= i <= |d| {
        assert s[i] == d[i - 1] && IsDigit(d[i - 1]);
      } else if |d| < i {
        assert s[i] == u[i - 1 - |d|];
      }
    }
  }

  /** `d6+`, for any sides number: the modifier field has no number after its sign. */
  lemma TrailingSignUnparsable(y: nat, init: RollInfo)
    requires y <= ULongMax
    ensures IsToken("d" + NatText(y) + "+")
    ensures Parse("d" + NatText(y) + "+", init) == Returned(UnparsableNumber, init.(dieSides := y))
  {
    SidesThenOptions(y, "+", init);
    NoNumberConversions("+", 0);
  }

  /** `d0`: a die without sides is not rejected; the parse succeeds. */
  lemma ZeroSidesAccepted(init: RollInfo)
    ensures IsToken("d0")
    ensures Parse("d0", init) == Returned(Ok, init.(dieSides := 0))
  {
    assert NatText(0) == "0";
    SidesThenOptions(0, "", init);
    assert "d" + NatText(0) + "" == "d0";
  }

  /** `d20a+a-`: a second advantage marker is a conflict, reported with the
      record as the first one left it. */
  lemma SecondAdvantageConflicts(y: nat, init: RollInfo)
    requires y <= ULongMax && !Limited(init)
    ensures IsToken("d" + NatText(y) + "a+a-")
    ensures Parse("d" + NatText(y) + "a+a-", init) ==
              Returned(Conflict, init.(dieSides := y, advantageFactor := Advantage))
  {
    SidesThenOptions(y, "a+a-", init);
  }

  /** `dYa+` selects advantage and `dYa` followed by any other character
      disadvantage; the parse succeeds. */
  lemma AdvantageMarker(y: nat, c: char, init: RollInfo)
    requires y <= ULongMax && !Limited(init) && TokenChar(c)
    ensures IsToken("d" + NatText(y) + "a" + [c])
    ensures Parse("d" + NatText(y) + "a" + [c], init) ==
              Returned(Ok, init.(dieSides := y, advantageFactor := if c == '+' then Advantage else Disadvantage))
  {
    var u := ['a', c];
    assert "d" + NatText(y) + "a" + [c] == "d" + NatText(y) + u;
    SidesThenOptions(y, u, init);
    var info := init.(dieSides := y);
    AdvantageField(u, 0, info);
    OneField(u, info, info.(advantageFactor := if c == '+' then Advantage else Disadvantage));
  }

  /** `d6khkh3`: the two characters after a `k` are always passed over, so
      the number is looked for at the second `k` and is missing. */
  lemma RepeatedKeepMarkerUnparsable(y: nat, init: RollInfo)
    requires y <= ULongMax && !Limited(init)
    ensures IsToken("d" + NatText(y) + "khkh3")
    ensures Parse("d" + NatText(y) + "khkh3", init) ==
              Returned(UnparsableNumber, init.(dieSides := y, discardMode := KeepHigh))
  {
    SidesThenOptions(y, "khkh3", init);
    NoNumberConversions("khkh3", 2);
  }

  /** `dY+M` and `dY-M`: a modifier that fits an int is stored with its
      sign, and the parse succeeds. */
  lemma SignedModifier(y: nat, c: char, m: nat, init: RollInfo)
    requires y <= ULongMax && (c == '+' || c == '-')
    requires if c == '-' then m <= -IntMin else m <= IntMax
    ensures IsToken("d" + NatText(y) + [c] + NatText(m))
    ensures Parse("d" + NatText(y) + [c] + NatText(m), init) ==
              Returned(Ok, init.(dieSides := y, modifierAfterDice := if c == '-' then -(m as int) else m))
  {
    var u := [c] + NatText(m);
    FieldText(c, NatText(m));
    SidesThenOptions(y, u, init);
    ModifierOptions(c, m, init.(dieSides := y));
    assert "d" + NatText(y) + [c] + NatText(m) == "d" + NatText(y) + u;
  }

  lemma ModifierOptions(c: char, m: nat, info: RollInfo)
    requires c == '+' || c == '-'
    requires if c == '-' then m <= -IntMin else m <= IntMax
    ensures var u := [c] + NatText(m);
            ScanOptions(u, FindFirstOf(u, AfterSides, 0), info) ==
              Returned(Ok, info.(modifierAfterDice := if c == '-' then -(m as int) else m))
  {
    var u := [c] + NatText(m);
    var v := if c == '-' then -(m as int) else m;
    assert Stol(u, 0) == Converted(v, |u|) by {
      assert u + [] == u;
      if c == '-' {
        StolReadsNegative(NatText(m), []);
      } else {
        StolReadsPositive(NatText(m), []);
      }
    }
    ModifierField(u, 0, info, v, |u|);
    assert ToInt(v) == v;
    OneField(u, info, info.(modifierAfterDice := v));
  }

  /** `dYrQ`: the repeat count is stored, and the parse succeeds. */
  lemma RepeatCount(y: nat, q: nat, init: RollInfo)
    requires y <= ULongMax && q <= ULongMax
    ensures IsToken("d" + NatText(y) + "r" + NatText(q))
    ensures Parse("d" + NatText(y) + "r" + NatText(q), init) ==
              Returned(Ok, init.(dieSides := y, repeats := q))
  {
    var u := ['r'] + NatText(q);
    FieldText('r', NatText(q));
    SidesThenOptions(y, u, init);
    RepeatOptions(q, init.(dieSides := y));
    assert "d" + NatText(y) + "r" + NatText(q) == "d" + NatText(y) + u;
  }

  lemma RepeatOptions(q: nat, info: RollInfo)
    requires q <= ULongMax
    ensures var u := ['r'] + NatText(q);
            ScanOptions(u, FindFirstOf(u, AfterSides, 0), info) == Returned(Ok, info.(repeats := q))
  {
    var u := ['r'] + NatText(q);
    MarkedNumber("r", q);
    RepeatField(u, 0, info, q, |NatText(q)|);
    OneField(u, info, info.(repeats := q));
  }

  /** `dYrQ` with `Q` above ULONG_MAX: std::stoul throws std::out_of_range,
      which nothing catches. */
  lemma OversizedRepeatTerminates(y: nat, q: nat, init: RollInfo)
    requires y <= ULongMax && q > ULongMax
    ensures IsToken("d" + NatText(y) + "r" + NatText(q))
    ensures Parse("d" + NatText(y) + "r" + NatText(q), init) == Terminated
  {
    var u := ['r'] + NatText(q);
    FieldText('r', NatText(q));
    SidesThenOptions(y, u, init);
    OversizedRepeatOptions(q, init.(dieSides := y));
    assert "d" + NatText(y) + "r" + NatText(q) == "d" + NatText(y) + u;
  }

  lemma OversizedRepeatOptions(q: nat, info: RollInfo)
    requires q > ULongMax
    ensures var u := ['r'] + NatText(q);
            ScanOptions(u, FindFirstOf(u, AfterSides, 0), info) == Terminated
  {
    var u := ['r'] + NatText(q);
    StoulSuffix(u, 1, 0);
    assert u[1..] == NatText(q) + [];
    StoulTooLarge(q, []);
    assert ScanStep(u, 0, info) == Stop(Terminated);
    assert FindFirstOf(u, AfterSides, 0) == 0;
  }

  /** The number written just after a marker reads back. */
  lemma MarkedNumber(marker: string, q: nat)
    requires q <= ULongMax
    ensures Stoul(marker + NatText(q), |marker|) == Converted(q, |NatText(q)|)
  {
    var u := marker + NatText(q);
    StoulSuffix(u, |marker|, 0);
    assert u[|marker|..] == NatText(q) + [];
    StoulReadsNatText(q, []);
  }

  /** `XdY+M` and `XdY-M`: the count, the sides and the signed modifier are
      all stored, and the parse succeeds. */
  lemma CountSidesModifier(x: nat, y: nat, c: char, m: nat, init: RollInfo)
    requires x <= ULongMax && y <= ULongMax && (c == '+' || c == '-')
    requires if c == '-' then m <= -IntMin else m <= IntMax
    ensures IsToken(NatText(x) + "d" + (NatText(y) + [c] + NatText(m)))
    ensures Parse(NatText(x) + "d" + (NatText(y) + [c] + NatText(m)), init) ==
              Returned(Ok, init.(dieCount := x, dieSides := y,
                                 modifierAfterDice := if c == '-' then -(m as int) else m))
  {
    var t := NatText(y) + [c] + NatText(m);
    SignedModifier(y, c, m, init.(dieCount := x));
    Associative("d", NatText(y), [c]);
    Associative("d", NatText(y) + [c], NatText(m));
    ExplicitCount(x, t, init);
  }

  /** `dYkhZ` and `dYklZ` (any character after the `k` but `h` counting as
      `l`, a digit included, so that `d6k13` keeps the lowest 3): a keep count up to the die count is stored with its direction; a
      larger one leaves keep-all with nothing to keep. The parse succeeds. */
  lemma KeepCount(y: nat, c: char, k: nat, init: RollInfo)
    requires y <= ULongMax && k <= ULongMax && !Limited(init) && TokenChar(c)
    ensures IsToken("d" + NatText(y) + "k" + [c] + NatText(k))
    ensures k > init.dieCount ==>
              Parse("d" + NatText(y) + "k" + [c] + NatText(k), init) ==
                Returned(Ok, init.(dieSides := y, discardMode := KeepAll, diceToKeep := 0))
    ensures k <= init.dieCount ==>
              Parse("d" + NatText(y) + "k" + [c] + NatText(k), init) ==
                Returned(Ok, init.(dieSides := y, discardMode := if c == 'h' then KeepHigh else KeepLow,
                                   diceToKeep := k))
  {
    var u := ['k', c] + NatText(k);
    KeepText(c, NatText(k));
    KeepTokenShape(NatText(y), c, NatText(k));
    SidesThenOptions(y, u, init);
    KeepOptions(c, k, init.(dieSides := y));
  }

  lemma KeepTokenShape(a: string, c: char, b: string)
    ensures "d" + a + "k" + [c] + b == "d" + a + (['k', c] + b)
  {
  }

  lemma KeepOptions(c: char, k: nat, info: RollInfo)
    requires k <= ULongMax && !Limited(info)
    ensures var u := ['k', c] + NatText(k);
            ScanOptions(u, FindFirstOf(u, AfterSides, 0), info) ==
              if k > info.dieCount then Returned(Ok, info.(discardMode := KeepAll, diceToKeep := 0))
              else Returned(Ok, info.(discardMode := if c == 'h' then KeepHigh else KeepLow, diceToKeep := k))
  {
    var u := ['k', c] + NatText(k);
    MarkedNumber(['k', c], k);
    KeepField(u, 0, info, k, |NatText(k)|);
    OneField(u, info, ScanStep(u, 0, info).info);
  }

  /** A keep marker, any character, and digits: no white space, and no
      digit first. */
  lemma KeepText(c: char, d: string)
    requires TokenChar(c) && AllDigits(d)
    ensures !IsDigit((['k', c] + d)[0])
    ensures forall i :: 0 <= i < |['k', c] + d| ==> TokenChar((['k', c] + d)[i])
  {
    var u := ['k', c] + d;
    forall i | 0 <= i < |u|
      ensures TokenChar(u[i])
    {
      if i > 1 {
        assert u[i] == d[i - 2] && IsDigit(d[i - 2]);
      }
    }
  }

  /** A field marker followed by digits: no white space, and no digit first. */
  lemma FieldText(c: char, d: string)
    requires c in AfterSides && AllDigits(d)
    ensures !IsDigit(([c] + d)[0])
    ensures forall i :: 0 <= i < |[c] + d| ==> TokenChar(([c] + d)[i])
  {
    var u := [c] + d;
    forall i | 0 <= i < |u|
      ensures TokenChar(u[i])
    {
      if i > 0 {
        assert u[i] == d[i - 1] && IsDigit(d[i - 1]);
      }
    }
  }

  /** Options made of one field that takes up the whole text. */
  lemma OneField(u: string, info: RollInfo, info': RollInfo)
    requires |u| > 0 && u[0] in AfterSides && ScanStep(u, 0, info) == Continue(|u|, info')
    ensures ScanOptions(u, FindFirstOf(u, AfterSides, 0), info) == Returned(Ok, info')
  {
    assert FindFirstOf(u, AfterSides, 0) == 0;
  }

  /** `d+Y`: the sides number is read from just past the `d`, sign
      included, and the scan for options starts at that same sign, so the
      number is read a second time as the modifier. */
  lemma SignedSidesReadTwice(y: nat, init: RollInfo)
    requires y <= IntMax
    ensures IsToken("d+" + NatText(y))
    ensures Parse("d+" + NatText(y), init) ==
              Returned(Ok, init.(dieSides := y, modifierAfterDice := y))
  {
    var d := NatText(y);
    var s := "d+" + d;
    SidesToken('d', "", "+" + d);
    assert "d" + "" + ("+" + d) == s;
    StartsAtD(s, init);
    assert s[1..] == "+" + d + [];
    StoulSuffix(s, 1, 0);
    StoulReadsPositive(d, []);
    StolSuffix(s, 1, 0);
    StolReadsPositive(d, []);
    assert FindFirstOf(s, AfterSides, 1) == 1;
    var info := init.(dieSides := y);
    ModifierField(s, 1, info, y, 1 + |d|);
    assert ToInt(y) == y;
    assert ScanSides(s, 0, init) == ScanOptions(s, 1, info);
    assert ScanOptions(s, 1, info) == ScanOptions(s, |s|, info.(modifierAfterDice := y));
  }

  /** `-XdY…`: std::stoul negates a count written with a minus sign modulo
      2^64, so `-1d6` asks for 2^64 - 1 dice. */
  lemma NegatedCount(x: nat, t: string, init: RollInfo)
    requires 0 < x <= ULongMax && IsToken("d" + t)
    ensures IsToken("-" + NatText(x) + "d" + t)
    ensures Parse("-" + NatText(x) + "d" + t, init) == Parse("d" + t, init.(dieCount := ULongModulus - x))
  {
    var p, s1 := "-" + NatText(x), "d" + t;
    var s := p + s1;
    assert s == "-" + NatText(x) + "d" + t;
    var info := init.(dieCount := ULongModulus - x);
    NegatedCountText(NatText(x), s1);
    StoulReadsNegative(NatText(x), s1);
    NegatedValue(Stoul(s, 0).value, x);
    assert Stoul(s, 0) == Converted(ULongModulus - x, |p|);
    assert s[0] == '-';
    assert Parse(s, init) == ScanSides(s, |p|, info);
    assert s[|p|..] == s1;
    ScanSidesSuffix(s, |p|, 0, info);
    StartsAtD(s1, info);
  }

  /** A minus sign, digits and a command from its `d`: a token whose first
      `d` is the one after the digits. */
  lemma NegatedCountText(d: string, s1: string)
    requires AllDigits(d) && IsToken(s1) && s1[0] == 'd'
    ensures IsToken("-" + d + s1)
    ensures FindFirstOf("-" + d + s1, {'d'}, 0) == 1 + |d|
  {
    var p := "-" + d;
    var s := p + s1;
    forall i | 0 <= i < |s|
      ensures TokenChar(s[i])
    {
      if 0 < i < |p| {
        assert s[i] == d[i - 1] && IsDigit(s[i]);
      } else if |p| <= i {
        assert s[i] == s1[i - |p|];
      }
    }
    forall i | 0 <= i < |p|
      ensures s[i] !in {'d'}
    {
      if i > 0 {
        assert s[i] == d[i - 1] && IsDigit(s[i]);
      }
    }
    FindFirstOfSkips(s, {'d'}, 0, |p|);
  }

  /** `dYk`: the `substr` after a trailing `k` starts past the end of the
      token, and the exception ends the program. */
  lemma TrailingKeepTerminates(y: nat, init: RollInfo)
    requires y <= ULongMax && !Limited(init)
    ensures IsToken("d" + NatText(y) + "k")
    ensures Parse("d" + NatText(y) + "k", init) == Terminated
  {
    SidesThenOptions(y, "k", init);
  }
}
