/** parseInput: a single left-to-right scan over one white-space-free token
    that fills a RollInfo. The grammar of this version is one term
    `[X]dY` followed by any of `a+`/`a-`, `khZ`/`klZ`, `rQ` and `+M`/`-M`. */
module DiceParser {
  import opened Numbers
  import opened DiceTypes

  /** How a call of parseInput ends: it returns a ParseResult, leaving the
      RollInfo it was given in the state `info`; or an exception it does not
      catch (std::out_of_range) terminates the program. */
  datatype ParseOutcome = Returned(result: ParseResult, info: RollInfo) | Terminated

  predicate IsSpace(c: char) {
    c == ' ' || '\t' <= c <= '\r'
  }

  /** A character of a token: one byte of the std::string, not white space. */
  predicate TokenChar(c: char) {
    c as int < 256 && !IsSpace(c)
  }

  /** What `std::cin >> inputString` yields: a non-empty token without white
      space, each character standing for one byte. */
  predicate IsToken(s: string) {
    |s| > 0 && forall i :: 0 <= i < |s| ==> TokenChar(s[i])
  }

  /** `s[i]` on a std::string, where `s[s.size()]` is the null character. */
  function CharAt(s: string, i: nat): (c: char)
    requires i <= |s|
    ensures i == |s| ==> c == '\0'
    ensures i < |s| ==> c == s[i]
  {
    if i < |s| then s[i] else '\0'
  }

  /** `s.find_first_of(chars, from)`, with |s| standing for npos. */
  function FindFirstOf(s: string, chars: set<char>, from: nat): (r: nat)
    ensures r <= |s|
    ensures r < |s| ==> from <= r && s[r] in chars
    ensures forall i :: from <= i < r ==> s[i] !in chars
    decreases |s| - from
  {
    if from >= |s| then |s|
    else if s[from] in chars then from
    else FindFirstOf(s, chars, from + 1)
  }

  /** The characters the scan looks for after the sides number, and after an advantage marker. */
  const AfterSides: set<char> := {'a', 'k', 'r', '+', '-'}
  const AfterAdvantage: set<char> := {'a', 'd', 'k', 'r', '+', '-'}

  /** What a successful parse guarantees of a RollInfo that started with no
      limit: advantage and an explicit keep never come together, an explicit
      keep count never exceeds the die count, and the modifier fits an int. */
  predicate Consistent(info: RollInfo) {
    && (info.discardMode != KeepAll ==>
          info.advantageFactor == NoAdvantage && info.diceToKeep <= info.dieCount)
    && IntMin <= info.modifierAfterDice <= IntMax
  }

  /** Where one pass of the loop of parseInput leaves it: at a new position
      with the record in a new state, or returning from parseInput. */
  datatype Step = Continue(pos: nat, info: RollInfo) | Stop(outcome: ParseOutcome)

  /** One pass of the loop of parseInput at position `pos`, the `switch` on `s[pos]`. */
  function ScanStep(s: string, pos: nat, info: RollInfo): (r: Step)
    requires pos < |s|
    ensures r.Continue? ==> pos < r.pos <= |s|
    ensures r.Continue? ==> r.info.dieCount == info.dieCount && r.info.dieSides == info.dieSides
    ensures r.Continue? && Consistent(info) ==> Consistent(r.info)
    ensures r.Stop? && r.outcome.Returned? ==> r.outcome.result != Quit && r.outcome.result != Ok
  {
    match s[pos]
    case 'a' =>
      if info.discardMode != KeepAll || info.advantageFactor != NoAdvantage then
        Stop(Returned(Conflict, info))
      else
        var factor := if CharAt(s, pos + 1) == '+' then Advantage else Disadvantage;
        Continue(FindFirstOf(s, AfterAdvantage, pos + 2), info.(advantageFactor := factor))
    case 'k' =>
      if info.advantageFactor != NoAdvantage || info.discardMode != KeepAll then
        Stop(Returned(Conflict, info))
      else
        var marked := info.(discardMode := if CharAt(s, pos + 1) == 'h' then KeepHigh else KeepLow);
        if |s| < pos + 2 then Stop(Terminated)  // substr past the end
        else
          (match Stoul(s, pos + 2)
           case InvalidArgument => Stop(Returned(UnparsableNumber, marked))
           case OutOfRange => Stop(Terminated)
           case Converted(k, n) =>
             var kept :=
               if k > marked.dieCount then marked.(discardMode := KeepAll, diceToKeep := 0)
               else marked.(diceToKeep := k);
             Continue(pos + 2 + n, kept))
    case 'r' =>
      (match Stoul(s, pos + 1)
       case InvalidArgument => Stop(Returned(UnparsableNumber, info))
       case OutOfRange => Stop(Terminated)
       case Converted(q, n) => Continue(pos + 1 + n, info.(repeats := q)))
    case '+' => ModifierStep(s, pos, info)
    case '-' => ModifierStep(s, pos, info)
    case _ => Stop(Returned(MalformedCommand, info))
  }

  /** The `+`/`-` case: the modifier read replaces any earlier one. */
  function ModifierStep(s: string, pos: nat, info: RollInfo): (r: Step)
    requires pos < |s|
    ensures r.Continue? ==> pos < r.pos <= |s|
    ensures r.Continue? ==> r.info == info.(modifierAfterDice := r.info.modifierAfterDice)
    ensures r.Continue? ==> IntMin <= r.info.modifierAfterDice <= IntMax
  {
    match Stol(s, pos)
    case InvalidArgument => Stop(Returned(UnparsableNumber, info))
    case OutOfRange => Stop(Terminated)
    case Converted(m, n) => Continue(pos + n, info.(modifierAfterDice := ToInt(m)))
  }

  /** The loop of parseInput, from position `pos` with the record in state `info`. */
  function ScanOptions(s: string, pos: nat, info: RollInfo): (r: ParseOutcome)
    ensures r.Returned? ==> r.result != Quit
    ensures r.Returned? ==> r.info.dieCount == info.dieCount && r.info.dieSides == info.dieSides
    ensures r.Returned? && r.result == Ok && Consistent(info) ==> Consistent(r.info)
    decreases |s| - pos
  {
    if pos >= |s| then Returned(Ok, info)
    else
      match ScanStep(s, pos, info)
      case Stop(outcome) => outcome
      case Continue(next, info') => ScanOptions(s, next, info')
  }

  /** parseInput(s, rollInfo) with `rollInfo` in state `init`. */
  function Parse(s: string, init: RollInfo): (r: ParseOutcome)
    requires IsToken(s)
    ensures (r.Returned? && r.result == Quit) <==> s[0] == 'q'
    ensures s[0] != 'q' && (forall i :: 0 <= i < |s| ==> s[i] != 'd') ==>
              r == Returned(MalformedCommand, init)
    ensures r.Returned? && r.result == Ok && Consistent(init) && init.discardMode == KeepAll ==>
              Consistent(r.info)
  {
    if s[0] == 'q' then Returned(Quit, init)
    else
      var d := FindFirstOf(s, {'d'}, 0);
      if d == |s| then Returned(MalformedCommand, init)
      else if d == 0 then ScanSides(s, 0, init)
      else
        match Stoul(s, 0)
        case InvalidArgument => Returned(UnparsableNumber, init)
        case OutOfRange => Terminated
        case Converted(c, n) =>
          assert n <= d by {
            DigitRunDigits(s, SignLength(s, 0));
            assert !IsDigit(s[d]);
          }
          ScanSides(s, n, init.(dieCount := c))
  }

  /** The sides number, read just past position `pos` (which the code takes to
      be the 'd'); the scan for options then starts at the sides number itself. */
  function ScanSides(s: string, pos: nat, info: RollInfo): (r: ParseOutcome)
    requires pos < |s|
    ensures r.Returned? ==> r.result != Quit
    ensures r.Returned? && r.result == Ok && Consistent(info) && info.discardMode == KeepAll ==>
              Consistent(r.info)
  {
    match Stoul(s, pos + 1)
    case InvalidArgument => Returned(UnparsableNumber, info)
    case OutOfRange => Terminated
    case Converted(y, _) =>
      ScanOptions(s, FindFirstOf(s, AfterSides, pos + 1), info.(dieSides := y))
  }

  /** parseInput itself: the record passed by reference is `rollInfo` on entry
      and the `info` of a returned outcome on exit. */
  method ParseInput(inputString: string, rollInfo: RollInfo) returns (outcome: ParseOutcome)
    requires IsToken(inputString)
    ensures outcome == Parse(inputString, rollInfo)
  {
    var info := rollInfo;
    if inputString[0] == 'q' {
      return Returned(Quit, info);
    }
    var parsePos := FindFirstOf(inputString, {'d'}, 0);
    if parsePos == |inputString| {
      return Returned(MalformedCommand, info);
    }
    if parsePos != 0 {
      var count := Stoul(inputString, 0);
      match count {
        case InvalidArgument => return Returned(UnparsableNumber, info);
        case OutOfRange => return Terminated;
        case Converted(c, n) =>
          assert n <= parsePos by {
            DigitRunDigits(inputString, SignLength(inputString, 0));
            assert !IsDigit(inputString[parsePos]);
          }
          info := info.(dieCount := c);
          parsePos := n;
      }
    }
    parsePos := parsePos + 1;
    var sides := Stoul(inputString, parsePos);
    match sides {
      case InvalidArgument => return Returned(UnparsableNumber, info);
      case OutOfRange => return Terminated;
      case Converted(y, _) => info := info.(dieSides := y);
    }
    parsePos := FindFirstOf(inputString, AfterSides, parsePos);
    outcome := ScanLoop(inputString, parsePos, info);
  }

  /** The `while` loop of parseInput, entered at `start` with the record in state `entry`. */
  method ScanLoop(inputString: string, start: nat, entry: RollInfo) returns (outcome: ParseOutcome)
    ensures outcome == ScanOptions(inputString, start, entry)
  {
    var parsePos, info := start, entry;
    ghost var goal := ScanOptions(inputString, parsePos, info);
    while parsePos < |inputString|
      invariant ScanOptions(inputString, parsePos, info) == goal
      decreases |inputString| - parsePos
    {
      ghost var step := ScanStep(inputString, parsePos, info);
      match inputString[parsePos] {
        case 'a' =>
          if info.discardMode != KeepAll || info.advantageFactor != NoAdvantage {
            return Returned(Conflict, info);
          }
          if CharAt(inputString, parsePos + 1) == '+' {
            info := info.(advantageFactor := Advantage);
          } else {
            info := info.(advantageFactor := Disadvantage);
          }
          parsePos := FindFirstOf(inputString, AfterAdvantage, parsePos + 2);
          assert step == Continue(parsePos, info);
        case 'k' =>
          if info.advantageFactor != NoAdvantage || info.discardMode != KeepAll {
            return Returned(Conflict, info);
          }
          if CharAt(inputString, parsePos + 1) == 'h' {
            info := info.(discardMode := KeepHigh);
          } else {
            info := info.(discardMode := KeepLow);
          }
          parsePos := parsePos + 2;
          if |inputString| < parsePos {
            return Terminated;
          }
          var keep := Stoul(inputString, parsePos);
          match keep {
            case InvalidArgument => return Returned(UnparsableNumber, info);
            case OutOfRange => return Terminated;
            case Converted(k, n) =>
              info := info.(diceToKeep := k);
              if info.diceToKeep > info.dieCount {
                info := info.(discardMode := KeepAll, diceToKeep := 0);
              }
              parsePos := parsePos + n;
              assert step == Continue(parsePos, info);
          }
        case 'r' =>
          var repeats := Stoul(inputString, parsePos + 1);
          match repeats {
            case InvalidArgument => return Returned(UnparsableNumber, info);
            case OutOfRange => return Terminated;
            case Converted(q, n) =>
              info := info.(repeats := q);
              parsePos := parsePos + n + 1;
              assert step == Continue(parsePos, info);
          }
        case _ =>
          if inputString[parsePos] != '+' && inputString[parsePos] != '-' {
            return Returned(MalformedCommand, info);
          }
          var modifier := Stol(inputString, parsePos);
          match modifier {
            case InvalidArgument => return Returned(UnparsableNumber, info);
            case OutOfRange => return Terminated;
            case Converted(m, n) =>
              info := info.(modifierAfterDice := ToInt(m));
              parsePos := parsePos + n;
              assert step == Continue(parsePos, info);
          }
      }
    }
    return Returned(Ok, info);
  }

  /** find_first_of only looks forward: from position `k + from` it finds
      what it finds in the suffix `s[k..]` from `from`, shifted by `k`
      (npos included). */
  lemma {:induction false} FindFirstOfSuffix(s: string, k: nat, chars: set<char>, from: nat)
    requires k <= |s|
    ensures FindFirstOf(s, chars, k + from) == k + FindFirstOf(s[k..], chars, from)
    decreases |s| - k - from
  {
    if k + from < |s| {
      assert s[k..][from] == s[k + from];
      if s[k + from] !in chars {
        FindFirstOfSuffix(s, k, chars, from + 1);
      }
    }
  }

  /** One pass of the loop looks only at the input from its position on. */
  lemma ScanStepSuffix(s: string, k: nat, pos: nat, info: RollInfo)
    requires k + pos < |s|
    ensures ScanStep(s, k + pos, info) == Shifted(k, ScanStep(s[k..], pos, info))
  {
    var c := s[k + pos];
    if c == 'a' {
      AdvantageSuffix(s, k, pos, info);
    } else if c == 'k' {
      KeepSuffix(s, k, pos, info);
    } else if c == 'r' {
      RepeatSuffix(s, k, pos, info);
    } else if c == '+' || c == '-' {
      ModifierSuffix(s, k, pos, info);
    } else {
      assert s[k..][pos] == c;
    }
  }

  /** A step of the scan seen from `k` characters further left. */
  function Shifted(k: nat, step: Step): (r: Step)
    ensures r.Continue? <==> step.Continue?
    ensures r.Continue? ==> r.pos == k + step.pos && r.info == step.info
    ensures r.Stop? ==> r == step
  {
    match step
    case Continue(next, info') => Continue(k + next, info')
    case Stop(outcome) => Stop(outcome)
  }

  lemma AdvantageSuffix(s: string, k: nat, pos: nat, info: RollInfo)
    requires k + pos < |s| && s[k + pos] == 'a'
    ensures ScanStep(s, k + pos, info) == Shifted(k, ScanStep(s[k..], pos, info))
  {
    var t := s[k..];
    assert t[pos] == 'a';
    assert CharAt(t, pos + 1) == CharAt(s, k + pos + 1);
    FindFirstOfSuffix(s, k, AfterAdvantage, pos + 2);
  }

  lemma KeepSuffix(s: string, k: nat, pos: nat, info: RollInfo)
    requires k + pos < |s| && s[k + pos] == 'k'
    ensures ScanStep(s, k + pos, info) == Shifted(k, ScanStep(s[k..], pos, info))
  {
    var t := s[k..];
    assert t[pos] == 'k';
    assert CharAt(t, pos + 1) == CharAt(s, k + pos + 1);
    if pos + 2 <= |t| {
      StoulSuffix(s, k, pos + 2);
    }
  }

  lemma RepeatSuffix(s: string, k: nat, pos: nat, info: RollInfo)
    requires k + pos < |s| && s[k + pos] == 'r'
    ensures ScanStep(s, k + pos, info) == Shifted(k, ScanStep(s[k..], pos, info))
  {
    assert s[k..][pos] == 'r';
    StoulSuffix(s, k, pos + 1);
  }

  lemma ModifierSuffix(s: string, k: nat, pos: nat, info: RollInfo)
    requires k + pos < |s| && (s[k + pos] == '+' || s[k + pos] == '-')
    ensures ScanStep(s, k + pos, info) == Shifted(k, ScanStep(s[k..], pos, info))
  {
    assert s[k..][pos] == s[k + pos];
    StolSuffix(s, k, pos);
  }

  /** The whole loop looks only at the input from its position on, so what
      precedes the options cannot change how they are read. */
  lemma {:induction false} ScanOptionsSuffix(s: string, k: nat, pos: nat, info: RollInfo)
    requires k <= |s|
    ensures ScanOptions(s, k + pos, info) == ScanOptions(s[k..], pos, info)
    decreases |s| - k - pos
  {
    if k + pos < |s| {
      ScanStepSuffix(s, k, pos, info);
      var step := ScanStep(s[k..], pos, info);
      if step.Continue? {
        ScanOptionsSuffix(s, k, step.pos, step.info);
      }
    }
  }

  /** Reading the sides and the options looks only at the input from the
      'd' on. */
  lemma ScanSidesSuffix(s: string, k: nat, pos: nat, info: RollInfo)
    requires k + pos < |s|
    ensures ScanSides(s, k + pos, info) == ScanSides(s[k..], pos, info)
  {
    var t := s[k..];
    StoulSuffix(s, k, pos + 1);
    FindFirstOfSuffix(s, k, AfterSides, pos + 1);
    match Stoul(t, pos + 1)
    case Converted(y, _) =>
      ScanOptionsSuffix(s, k, FindFirstOf(t, AfterSides, pos + 1), info.(dieSides := y));
    case _ =>
  }

  /** "d6" is "1d6": a command that starts at its 'd' keeps the die count it
      was given, 1 for a fresh RollInfo, and parses exactly like the same
      command with an explicit count of 1. */
  lemma CountDefaultsToOne(t: string, init: RollInfo)
    requires IsToken("d" + t) && init.dieCount == 1
    ensures IsToken("1d" + t)
    ensures Parse("d" + t, init) == Parse("1d" + t, init)
  {
    var s1, s2 := "d" + t, "1d" + t;
    assert s2 == "1" + s1;
    assert Parse(s1, init) == ScanSides(s1, 0, init) by {
      assert FindFirstOf(s1, {'d'}, 0) == 0;
    }
    assert Parse(s2, init) == ScanSides(s2, 1, init) by {
      assert s2[0] == '1' && s2[1] == 'd';
      assert FindFirstOf(s2, {'d'}, 0) == 1;
      StoulReadsNatText(1, s1);
      assert Stoul(s2, 0) == Converted(1, 1);
      assert init.(dieCount := 1) == init;
    }
    assert s2[1..] == s1;
    ScanSidesSuffix(s2, 1, 0, init);
  }
}
