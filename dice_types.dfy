/** The enums and the RollInfo record of the dice roller. */
module DiceTypes {
  import opened Numbers

  datatype AdvantageFactor = NoAdvantage | Advantage | Disadvantage

  datatype DiscardMode = KeepAll | KeepHigh | KeepLow

  /** The values parseInput returns. The program's RESEED value is never
      produced and is not modelled. */
  datatype ParseResult = Quit | Ok | MalformedCommand | UnparsableNumber | Conflict

  /** A parsed roll. The size_t fields are unbounded here; the values the
      parser stores in them come from std::stoul, whose contract bounds them
      by ULONG_MAX, the same as SizeMax on the LP64 platform the model
      fixes. */
  datatype RollInfo = RollInfo(
    dieCount: nat,
    dieSides: nat,
    diceToKeep: nat,
    repeats: nat,
    modifierAfterDice: int,
    advantageFactor: AdvantageFactor,
    discardMode: DiscardMode)

  const SizeMax: nat := ULongMax

  /** A default-constructed RollInfo, as the interactive loop makes one for every command. */
  const DefaultRollInfo: RollInfo := RollInfo(1, 0, SizeMax, 1, 0, NoAdvantage, KeepAll)
}
