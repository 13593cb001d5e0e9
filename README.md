# rpdiceroller in Dafny

A model of the interactive tabletop dice roller `rpdiceroller`. It covers the
two parts of the program that compute something:

- **The command parser** `parseInput`. It scans one white-space-free token
  such as `3d20kh2+4r5` in a single left-to-right pass. It fills a `RollInfo`
  record (die count, sides, keep count, repeats, modifier, advantage, discard
  mode) and returns `QUIT`, `OK`, `MALFORMED_COMMAND`, `UNPARSABLE_NUMBER` or
  `CONFLICT`.
- **The roll evaluator**:
  - `roll_and_print_once`: roll the dice, sort them for keep-high or
    keep-low, sum the kept ones and add the modifier;
  - `roll_and_print`: one such roll, or the larger or smaller of two with
    advantage or disadvantage;
  - the repeat loop of `main`, which adds up one `roll_and_print` per repeat;
  - `print_roll_vector`: shows the rolls with the discarded ones in
    parentheses.

Modules, in dependency order:

- `Numbers` (`numbers.dfy`): the library conversions the program relies on.
  - `std::stoul` and `std::stol` read an optional sign and a run of decimal
    digits. They throw `invalid_argument` when there is no digit and
    `out_of_range` past the `unsigned long` / `long` range.
  - The assignment of a `long` to an `int` wraps, as two's complement.
  - `operator<<` writes the decimal text of an integer.
- `DiceTypes` (`dice_types.dfy`): the enums and the `RollInfo` record. The
  constant `DefaultRollInfo` holds the defaults of a fresh record
  (main.cpp:31-39): one die, no sides, `SIZE_MAX` to keep, one repeat, no
  modifier, no advantage, keep-all.
- `DiceParser` (`parser.dfy`): `parseInput`.
  - The method `ParseInput` and its loop `ScanLoop` follow the code statement
    by statement.
  - They are proved equal to the function `Parse`, which is built from
    `ScanStep`, one pass of the `switch`.
  - A position past the end of the string reads as the null character, as
    `std::string::operator[]` does.
  - An exception the code does not catch (`out_of_range` from a conversion,
    or from `substr` after a trailing `k`) is the outcome `Terminated`.
- `ParseProperties` (`parser_props.dfy`): what one pass and whole commands do.
- `Sorting` (`sorting.dfy`): the result of `std::sort`, ascending or with
  `std::greater`. It is defined once, and every ordering of the same values
  is proved equal to it.
- `RollDisplay` (`display.dfy`): `print_roll_vector`, writing to a string.
- `DiceRoller` (`roller.dfy`): `roll_and_print_once`, `roll_and_print` and
  the repeat loop of `main`.
  - The random engine and the distribution are replaced by the stream of
    values the distribution would yield (`draws`). Every method returns the
    draws it left unused.
  - What the code writes to `std::cout` is returned as a string.
- `RollProperties` (`roller_props.dfy`): the kept rolls, and the bounds of
  the totals.
- `Session` (`session.dfy`): the OK branch of `main`, where the `RollInfo`
  that `parseInput` filled goes to the evaluator, and a whole command worked
  through from draws to text.

## Model

| member | source | states |
|---|---|---|
| `DiceParser.ParseInput` | rpdiceroller/main.cpp:103-128 | The statement-by-statement parseInput returns exactly the outcome and final record of `Parse`. |
| `DiceParser.ScanLoop` | rpdiceroller/main.cpp:129-189 | The `while`/`switch` loop over the options yields exactly `ScanOptions` from its start position and record. |
| `DiceParser.Parse` | rpdiceroller/main.cpp:105-121 | `QUIT` exactly when the token starts with `q`. Otherwise a token with no `d` is `MALFORMED_COMMAND` with the record untouched. A successful parse from a fresh record keeps advantage and an explicit keep exclusive, the keep count within the die count, and the modifier an int. |
| `DiceParser.ScanStep` | rpdiceroller/main.cpp:130-186 | A pass that goes on moves strictly forward within the string. It changes neither the die count nor the sides, and it keeps the record consistent. A pass that returns never returns `QUIT` or `OK`. |
| `DiceParser.ModifierStep` | rpdiceroller/main.cpp:175-183 | A `+`/`-` field changes only the modifier, to a value an int holds, and moves forward. Its exact value and position are in `ModifierField`. |
| `DiceParser.ScanOptions` | rpdiceroller/main.cpp:128-189 | The option loop never returns `QUIT` and leaves the die count and sides alone. `OK` from a consistent record gives a consistent record. |
| `DiceParser.ScanSides` | rpdiceroller/main.cpp:122-128 | Reading the sides and the options never yields `QUIT`. From a keep-all consistent record, `OK` yields a consistent record. |
| `DiceParser.FindFirstOf` | rpdiceroller/main.cpp:108 | `find_first_of` returns the first position at or after `from` holding one of the characters, or npos (the length) when there is none. |
| `DiceParser.CharAt` | rpdiceroller/main.cpp:136 | Indexing below the length gives that character, and indexing at the length gives the null character. |
| `DiceParser.CountDefaultsToOne` | rpdiceroller/main.cpp:32 | `d…` and `1d…` give the same outcome and record when the count starts at its default 1. |
| `DiceParser.ScanOptionsSuffix` | rpdiceroller/main.cpp:129-188 | The option loop looks only at the input from its position on: text before the options cannot change how they are read. |
| `DiceParser.ScanSidesSuffix` | rpdiceroller/main.cpp:122-128 | Reading the sides and options depends only on the input from the `d` on. |
| `DiceParser.ScanStepSuffix` | rpdiceroller/main.cpp:130-186 | One pass depends only on the input from its position on. |
| `DiceParser.FindFirstOfSuffix` | rpdiceroller/main.cpp:128 | `find_first_of` in a suffix finds the same position, shifted by the length of what was cut off. |
| `ParseProperties.StepMalformed` | rpdiceroller/main.cpp:184-186 | A pass returns `MALFORMED_COMMAND` exactly when its character is none of `a`, `k`, `r`, `+`, `-`, and then the record is unchanged. |
| `ParseProperties.FieldThenStray` | rpdiceroller/main.cpp:184-186 | A character that starts no field, right where a consumed field leaves the scan, ends the parse as `MALFORMED_COMMAND` with the record that field produced. |
| `ParseProperties.StepConflict` | rpdiceroller/main.cpp:131-135 | A pass returns `CONFLICT` exactly when it meets `a` or `k` while advantage or an explicit keep is in force (both directions). |
| `ParseProperties.StepUnparsable` | rpdiceroller/main.cpp:154-183 | A pass returns `UNPARSABLE_NUMBER` exactly when its field's number is missing: after `r`, after the two characters of a keep, or after a modifier's sign. |
| `ParseProperties.SidesUnparsable` | rpdiceroller/main.cpp:123-127 | No digit after the `d` gives `UNPARSABLE_NUMBER` with the record unchanged. |
| `ParseProperties.CountUnparsable` | rpdiceroller/main.cpp:114-119 | A token whose `d` is preceded by something that is not a number gives `UNPARSABLE_NUMBER` with the record unchanged. |
| `ParseProperties.NoNumberConversions` | rpdiceroller/main.cpp:124 | `stoul` and `stol` throw `invalid_argument` exactly when no digit follows the optional sign. |
| `ParseProperties.AdvantageField` | rpdiceroller/main.cpp:136-143 | An `a` field selects advantage exactly when a `+` follows it, and disadvantage for anything else, the null character included. Nothing else in the record changes. The scan resumes at the next `a`/`d`/`k`/`r`/`+`/`-` two characters on. |
| `ParseProperties.KeepField` | rpdiceroller/main.cpp:150-161 | A keep count above the die count leaves keep-all with 0 to keep. Otherwise the count is stored and an `h` after the `k` (and only an `h`) keeps high. The scan moves past the number. |
| `ParseProperties.RepeatField` | rpdiceroller/main.cpp:166-174 | When a number follows the `r`, it becomes the repeat count. Nothing else changes, and the scan goes on just past the number. |
| `ParseProperties.ModifierField` | rpdiceroller/main.cpp:175-183 | When `stol` reads a number at a `+`/`-` (the sign included), its value converted to an int becomes the modifier. Nothing else changes, and the scan goes on just past the number. |
| `ParseProperties.StepTerminated` | rpdiceroller/main.cpp:154-183 | A pass ends the program exactly when a conversion meets a number out of range, or when a `k` is the last character, so that `substr` starts past the end (both directions). |
| `ParseProperties.ModifierOverwrites` | rpdiceroller/main.cpp:178-179 | A later modifier replaces an earlier one: the result of a `+`/`-` field does not depend on the record it starts from. |
| `ParseProperties.FindFirstOfSkips` | rpdiceroller/main.cpp:128 | Characters that are not searched for are passed over. |
| `ParseProperties.ExplicitCount` | rpdiceroller/main.cpp:114-121 | A count before the `d` is read into the die count, and the rest parses as the command starting at the `d` would with that count. |
| `ParseProperties.CountSkipsOneCharacter` | rpdiceroller/main.cpp:113-124 | After a count `X`, the character right after its last digit is passed over, whatever it is. The sides are read from the character after it, with the die count X, wherever the `d` lies. |
| `ParseProperties.SkippedCharacterThenSides` | rpdiceroller/main.cpp:113-125 | `XcYu` with any non-digit `c` has count X and sides Y, and its options are scanned in `u`. For `c` = `d` this is the ordinary `XdY`. |
| `ParseProperties.SkippedCharacterBeforeD` | rpdiceroller/main.cpp:113-128 | `XcdZ` with any non-digit `c` is `UNPARSABLE_NUMBER`, with the count X already stored: the sides are looked for at the `d`. |
| `ParseProperties.CountThenStrayCharacter` | rpdiceroller/main.cpp:105-125 | `3x5d6` parses as `OK` with three five-sided dice. |
| `ParseProperties.CountThenStrayBeforeD` | rpdiceroller/main.cpp:105-128 | `3xd6` parses as `UNPARSABLE_NUMBER` with the count 3 stored. |
| `ParseProperties.SidesThenOptions` | rpdiceroller/main.cpp:122-128 | The sides number after the `d` goes into the sides field. The options after it are scanned as if they stood alone, starting at their first `a`/`k`/`r`/`+`/`-`. |
| `ParseProperties.TrailingSignUnparsable` | rpdiceroller/main.cpp:177-182 | `dY+` for any sides `Y` is `UNPARSABLE_NUMBER`. |
| `ParseProperties.AdvantageMarker` | rpdiceroller/main.cpp:136-143 | `dYa+` parses as `OK` with advantage, and `dYa` followed by any other character as `OK` with disadvantage. |
| `ParseProperties.OversizedRepeatTerminates` | rpdiceroller/main.cpp:166-174 | `dYrQ` with `Q` above ULONG_MAX ends the program: `stoul` throws `out_of_range` and nothing catches it. |
| `ParseProperties.SecondAdvantageConflicts` | rpdiceroller/main.cpp:131-135 | `dYa+a-` is `CONFLICT`, with advantage already recorded. |
| `ParseProperties.RepeatedKeepMarkerUnparsable` | rpdiceroller/main.cpp:155-163 | `dYkhkh3` is `UNPARSABLE_NUMBER`: the number is looked for at the second `k`. |
| `ParseProperties.ZeroSidesAccepted` | rpdiceroller/main.cpp:122-128 | `d0` parses as `OK` with 0 sides. |
| `ParseProperties.SignedModifier` | rpdiceroller/main.cpp:175-183 | `dY+M` and `dY-M` parse as `OK`, with sides `Y` and modifier `M` or `-M`, for every modifier an int holds. |
| `ParseProperties.CountSidesModifier` | rpdiceroller/main.cpp:108-183 | `XdY+M` and `XdY-M` parse as `OK`, with count `X`, sides `Y` and the signed modifier; no other field changes. |
| `ParseProperties.RepeatCount` | rpdiceroller/main.cpp:166-174 | `dYrQ` parses as `OK`, with sides `Y` and repeat count `Q`. |
| `ParseProperties.KeepCount` | rpdiceroller/main.cpp:145-165 | `dYkcZ` parses as `OK`. If `Z` is above the die count, the record is left keep-all with 0 to keep. Otherwise it keeps `Z` dice: the highest when `c` is `h`, the lowest for any other `c`, a digit included (`d6k13` keeps the lowest 3). |
| `ParseProperties.SignedSidesReadTwice` | rpdiceroller/main.cpp:122-128 | `d+Y` parses as `OK` with `Y` sides and modifier `Y`: the sides number is read with its sign, and the option scan starts at that sign. |
| `ParseProperties.NegatedCount` | rpdiceroller/main.cpp:113-121 | `-XdY…` parses as `dY…` would with a count of 2^64 - X. |
| `ParseProperties.TrailingKeepTerminates` | rpdiceroller/main.cpp:154-156 | `dYk` ends the program: the `substr` after the trailing `k` starts past the end. |
| `Numbers.Stoul` | rpdiceroller/main.cpp:116 | `invalid_argument` exactly when no digit follows the optional sign. A converted value fits an unsigned long, and the length counted is the sign plus the digits. |
| `Numbers.Stol` | rpdiceroller/main.cpp:178 | The same for `stol`, with a value that fits a long. |
| `Numbers.StoulValue` | rpdiceroller/main.cpp:116 | `stoul` throws `out_of_range` exactly when the digits' value is above ULONG_MAX. Otherwise it yields that value, or after a `-` the unsigned long that adds up with it to a multiple of 2^64. |
| `Numbers.StolValue` | rpdiceroller/main.cpp:178 | `stol` throws `out_of_range` exactly when the signed value of the digits lies outside the long range, and otherwise yields that signed value. |
| `Numbers.StoulTooLarge` | rpdiceroller/main.cpp:116 | The text of any number above ULONG_MAX makes `stoul` throw `out_of_range`. |
| `Numbers.ToInt` | rpdiceroller/main.cpp:178 | Assigning to an int yields an int congruent to the value modulo 2^32, and the value itself when it fits. |
| `Numbers.StoulReadsNatText` | rpdiceroller/main.cpp:124 | `stoul` reads back the decimal text of any unsigned long and consumes exactly that text. |
| `Numbers.StolReadsIntText` | rpdiceroller/main.cpp:178 | `stol` reads back the text of any long, a minus sign included, and consumes exactly that text. |
| `Numbers.StoulSuffix` | rpdiceroller/main.cpp:124 | `stoul` on `substr(at)` reads only the characters from `at` on. |
| `Numbers.StolSuffix` | rpdiceroller/main.cpp:178 | `stol` on `substr(at)` reads only the characters from `at` on. |
| `Numbers.IntText` | rpdiceroller/main.cpp:233-235 | The text of an integer is non-empty and all digits, except for a leading minus sign, which appears exactly when the integer is negative. |
| `Numbers.StoulReadsNegative` | rpdiceroller/main.cpp:116 | std::stoul reads `-` and digits as the unsigned long that adds up with the magnitude to a multiple of 2^64, and uses the sign and every digit. |
| `Numbers.StoulReadsPositive` | rpdiceroller/main.cpp:116 | std::stoul reads `+` and digits as the digits' value, and uses the sign and every digit. |
| `Numbers.WrapThenAdd` | rpdiceroller/main.cpp:229 | Wrapping to an int, adding, and wrapping again gives the same int as wrapping the exact sum once. |
| `Numbers.NatText` | rpdiceroller/main.cpp:83 | The decimal text of a number is non-empty, all digits, has that value, and has no leading zero. |
| `Sorting.Sort` | rpdiceroller/main.cpp:222-227 | The sorted rolls have the same length and the same values as the rolls (a permutation), in the order requested. |
| `Sorting.Insert` | rpdiceroller/main.cpp:222-227 | Placing one value in an ordered sequence keeps it ordered and adds exactly that value. |
| `Sorting.SortedPermutationUnique` | rpdiceroller/main.cpp:222-227 | Any two orderings of the same values are equal, so the result does not depend on the algorithm `std::sort` uses. |
| `DiceRoller.Arranged` | rpdiceroller/main.cpp:219-228 | The rolls vector after the switch is a permutation of the draws: unchanged for keep-all, descending for keep-high, ascending for keep-low. |
| `DiceRoller.Accumulate` | rpdiceroller/main.cpp:229 | `std::accumulate` with an int initial value, converting back to an int after every addition, yields the exact sum of the range and the initial value, wrapped to an int once. |
| `DiceRoller.OnceTotal` | rpdiceroller/main.cpp:229-230 | The once-total is the sum of the kept rolls, as the int accumulator leaves it, plus the modifier. |
| `DiceRoller.OnceText` | rpdiceroller/main.cpp:231-235 | The line roll_and_print_once writes starts with the arranged rolls as print_roll_vector shows them, and ends with ` = `, the once-total and a newline. |
| `DiceRoller.OnceMiddle` | rpdiceroller/main.cpp:232-234 | Between the shown rolls and ` = total`, the line holds nothing when the modifier is 0, and otherwise ` + ` and the modifier's text, a negative one with its minus sign (` + -2`). |
| `DiceRoller.RollOnce` | rpdiceroller/main.cpp:213-237 | roll_and_print_once takes one draw per die, in order. It returns the once-total and the text it writes, and leaves the draws after them. |
| `RollProperties.OnceTotalExact` | rpdiceroller/main.cpp:229-230 | When all the dice together have at most INT_MAX pips, the once-total is the plain sum of the kept rolls plus the modifier, between 1 and `dieSides` per kept roll. |
| `RollProperties.KeptAreExtreme` | rpdiceroller/main.cpp:219-229 | The kept rolls are the first `diceToKeep` of the arranged rolls. Keep-high keeps rolls at least as large as every discarded one, and keep-low at least as small. The kept and discarded rolls together are exactly the draws. |
| `RollProperties.KeepingOneMore` | rpdiceroller/main.cpp:219-230 | With the same draws, keeping one more die adds exactly the next arranged roll to the total, so the total strictly grows: `sum(khK) < sum(khK+1)`, and likewise for keep-low. |
| `RollProperties.SumAppend` | rpdiceroller/main.cpp:229 | Summing one more roll adds its value. |
| `RollProperties.KeptIndependentOfSort` | rpdiceroller/main.cpp:222-229 | Any ordering of the draws in the requested direction gives the same kept rolls. |
| `RollProperties.SumBounds` | rpdiceroller/main.cpp:194 | Draws from [1, sides] sum to between 1 and `sides` per draw. |
| `RollProperties.PrefixSum` | rpdiceroller/main.cpp:229 | Summing only a prefix of the rolls never gives more than summing all of them. |
| `RollProperties.RollTotalBounds` | rpdiceroller/main.cpp:196-210 | With or without advantage, the value of roll_and_print lies between the lowest and the highest once-total. Those are 1 and `dieSides` per kept roll, plus the modifier. |
| `RollProperties.SupertotalBounds` | rpdiceroller/main.cpp:80-86 | The sum of `count` calls of roll_and_print lies between `count` lowest and `count` highest once-totals. |
| `RollProperties.ArrangedValid` | rpdiceroller/main.cpp:219-228 | Sorting keeps every roll within the faces of the die. |
| `DiceRoller.RollTotal` | rpdiceroller/main.cpp:196-210 | Without advantage, the value is the once-total. With advantage it is the larger of two once-totals, with disadvantage the smaller, and always one of the two. |
| `DiceRoller.Roll` | rpdiceroller/main.cpp:192-211 | roll_and_print uses one block of draws per once-roll (two with advantage). It returns `RollTotal` of them and writes `RollText`: their texts plus the final-result line. |
| `DiceRoller.RollRepeatedly` | rpdiceroller/main.cpp:80-87 | The OK branch of main: the sum of one roll_and_print per repeat, at least one (`RepeatTotal`, the `Supertotal` of that many calls). It also writes the transcript with the announcements and the sum line (`RepeatText`) and returns the draws left over. |
| `DiceRoller.RepeatLoop` | rpdiceroller/main.cpp:82-85 | The `for` loop of main carries the supertotal, the transcript and the unused draws from `done` calls to `repeats` calls. |
| `DiceRoller.RepeatRoll` | rpdiceroller/main.cpp:83-84 | One pass of the loop announces the next roll and adds its value. |
| `DiceRoller.RepeatsAtMostOnce` | rpdiceroller/main.cpp:80-81 | With `repeats` 0 or 1 there is exactly one roll: its value and text, no announcement and no sum line. |
| `DiceRoller.TranscriptStep` | rpdiceroller/main.cpp:83-84 | The transcript of `i + 1` rolls extends that of `i` rolls by the announcement and the text of the last roll. |
| `DiceRoller.Announcement` | rpdiceroller/main.cpp:83 | The line before a repeated roll is `Repeating roll #`, the roll's number in decimal digits, and a colon. |
| `DiceRoller.Times` | rpdiceroller/main.cpp:80-82 | main calls roll_and_print at least once, and exactly `repeats` times when `repeats` exceeds 1. |
| `DiceRoller.AfterIsSuffix` | rpdiceroller/main.cpp:84 | After `count` rolls, the draws left are those past the blocks used. |
| `RollDisplay.RollVectorText` | rpdiceroller/main.cpp:239-251 | The text of print_roll_vector opens with `[ ` and closes with `]`, and each roll takes at least two characters. |
| `RollDisplay.PrintRollVector` | rpdiceroller/main.cpp:239-251 | The loop of print_roll_vector writes exactly `RollVectorText`. |
| `RollDisplay.KeptThenDiscarded` | rpdiceroller/main.cpp:241-250 | The text is `[ `, then the first `n` rolls bare, then the remaining rolls in parentheses, each followed by a space, in their order, then `]`. |
| `RollDisplay.DiscardedCount` | rpdiceroller/main.cpp:243-247 | The text holds exactly one `(` and one `)` per roll at an index of `n` or more, and no others. |
| `RollDisplay.ConcatAppend` | rpdiceroller/main.cpp:242-249 | Writing two runs of pieces one after the other writes their concatenation. |
| `Session.ParsedRollable` | rpdiceroller/main.cpp:31-39 | A fresh `RollInfo` (the defaults of lines 32-38) that parseInput fills and returns as `OK` is what the evaluator needs, once the die has between 1 and INT_MAX sides. |
| `Session.ThreeDiceRolled` | rpdiceroller/main.cpp:213-237 | `3d6+2` parses from a fresh record to three six-sided dice with modifier 2. Rolled as 4, 2 and 5, it uses three draws and totals 13, and the line written is `[ 4 2 5 ] + 2 = 13`. |
| `Session.ThreeDiceLowered` | rpdiceroller/main.cpp:229-235 | `3d6-2` rolled as 4, 2 and 5 totals 9, and the line written is `[ 4 2 5 ] + -2 = 9`. |
| `Session.OneDieRolled` | rpdiceroller/main.cpp:229-235 | `d6` rolled as 3 totals 3, and with no modifier the line written is `[ 3 ] = 3`. |
| `Session.FourShown` | rpdiceroller/main.cpp:239-251 | The rolls 6, 5, 4 and 1 with three kept are shown as `[ 6 5 4 (1) ]`. |

## Left out

- The interactive loop of `main` is left out: the banner, reading the token
  with `std::cin`, and the error messages on `std::cerr`. It is console I/O.
  The OK branch of `main` is modelled.
- The random engine is left out: `std::mt19937_64`, its seeding from the
  clock, and `std::uniform_int_distribution`. They are foreign library code.
  The evaluator takes the values the distribution yields as a parameter
  (`draws`). Only draws in `[1, dieSides]` (`ValidDraws`) stand for values
  the distribution can yield. The evaluator methods accept any draws and
  compute with them as the code would. The lemmas whose statements depend
  on the range (`ArrangedValid`, `SumBounds`, `RollTotalBounds`,
  `SupertotalBounds`) require it.
- `DiceRoller.Rollable`: the evaluator requires 1 <= `dieSides` <= INT_MAX.
  - A die with 0 sides gives the distribution a lower bound above its upper
    bound, which is undefined behaviour.
  - The distribution's bounds are `int`, so a larger `dieSides` would be
    narrowed.
  - The parser itself accepts both (see `ZeroSidesAccepted`).
- `DiceParser.Parse`: the token must be non-empty and free of white space,
  which is what `std::cin >>` yields. `at(0)` on an empty string would throw.
- `DiceParser.IsToken`: each character of a token stands for one byte of the
  `std::string`, so tokens are made of characters below 256. Text whose
  characters take several bytes in UTF-8 is not modelled. The code steps
  over such text byte by byte (`é` after a `k` is two bytes), which the
  model does not follow.
- `RollProperties.OnceTotalExact`: the exact-sum statement is proved only
  when `dieCount * dieSides` <= INT_MAX. For larger dice, the contract of
  `Accumulate` gives the wrapped value instead.
- `DiceRoller.RollRepeatedly`: the supertotal is an unbounded integer. The
  code's `int64_t` would overflow only past 2^63, after more than 2^31
  repeats of the largest once-total.
- `Numbers.Stoul`, `Numbers.Stol`, `Numbers.ToInt`: the model fixes an LP64
  platform with two's complement integers. That means a 64-bit
  `unsigned long` and `long` (ULONG_MAX = SIZE_MAX = 2^64 - 1), a 32-bit
  `int`, and narrowing from `long` to `int` modulo 2^32. On an LLP64
  target such as 64-bit Windows, `unsigned long` has 32 bits: there,
  `stoul("5000000000")` throws `out_of_range` and a `-` negates modulo
  2^32. Before C++20 the narrowing is implementation-defined. Neither
  alternative is modelled.
- `std::sort` is modelled by its result (the ordered permutation), not by
  its algorithm. The `std::greater<int>` comparator narrows the `int64_t`
  rolls to `int`. This makes no difference, because every roll lies within
  `[1, dieSides]` and `dieSides` fits an int.
- The `RESEED` result and the reseeding command are not modelled: the code
  never produces `RESEED`.

## Quirks of the code

The model keeps each of these behaviours as the code has it.

- `d6khkh3` gives `UNPARSABLE_NUMBER`. The two characters after a `k` are
  always skipped, so the number is looked for at the second `k`
  (`RepeatedKeepMarkerUnparsable`).
- A die with no sides, or a count of zero, is not rejected: `d0` parses as
  `OK` (`ZeroSidesAccepted`).
- A number too large for `unsigned long` / `long` throws `std::out_of_range`.
  Nothing catches it, so the program ends (`StoulValue`, `StolValue`, `StepTerminated`,
  `OversizedRepeatTerminates`).
  So does a `k` as the last character (`TrailingKeepTerminates`).
- The kept rolls are summed with an `int` accumulator, so a very large
  total wraps (`Accumulate`).
- `std::stoul` accepts a leading sign, and a `-` negates modulo 2^64
  (`StoulReadsNegative`). So a count, sides number, keep count or repeat
  count written with a sign is accepted: `-1d6` asks for 2^64 - 1 dice
  on LP64 (`NegatedCount`).
- The scan for options starts at the first character of the sides number,
  so a signed sides number is read twice: `d+6` has 6 sides and a modifier
  of 6 (`SignedSidesReadTwice`).
- Any character after an `a` other than `+` selects disadvantage, and any
  character after a `k` other than `h` selects keep-low (`AdvantageField`,
  `AdvantageMarker`, `KeepCount`).
- A later `+M`/`-M` replaces an earlier one (`ModifierOverwrites`).
- After a count, the character right after its last digit is skipped
  unseen: `3x5d6` rolls three five-sided dice, and `3xd6` is
  `UNPARSABLE_NUMBER` because the sides are looked for at the `d`
  (`CountSkipsOneCharacter`, `SkippedCharacterThenSides`,
  `SkippedCharacterBeforeD`, `CountThenStrayCharacter`,
  `CountThenStrayBeforeD`).
