# Dice rolls of the Discord dice bot, in Dafny

This project models `dice-rolls.js`, the module that turns one word of a Discord message
into dice results. It covers:

- the dice pattern `(?:(\d+)#)?(\d)([frt]{1})(?:(?:(kh)(\d+))|(?:(kl)(\d+)))?(?:([\+\-])?(\d+))?`,
  written as a matcher by hand;
- the dice model built from a match;
- the three die families: f is d12 − 6, r is d18 − 9 and t is d24 − 12;
- the roll loop, with the default `sort()`;
- the `sum` helper;
- `parseDiceRoll` itself.

Modules, one concept each:

- `Common`: `Option` and `Result`.
- `JsNumbers`: `parseInt` on digit strings and the decimal rendering of a number.
- `JsSort`: `Array.prototype.sort` with no comparator. It compares the decimal renderings
  of the numbers as strings.
- `DicePattern`: `RegExp.prototype.exec` of the dice pattern on a fresh global regular
  expression. This is a leftmost search. At each position it tries the `N#` prefix first
  and falls back to the attempt without it. Every digit run is greedy, `kh` is tried
  before `kl`, and a sign is taken only when digits follow it.
- `DiceModels`: `translateMatchToDiceModel`.
- `Rolling`: `getRandomInt`, `rollDiceByType`, `calculateDiceRoll` and `sum`.
- `DiceParser`: `toLowerCase`, `createDiceResult` and `parseDiceRoll`.

How randomness is handled:

- `GetRandomInt` may return any integer in its range.
- The methods that roll also return, as ghost results, the faces they drew.
- Each such method is proved equal to a pure function of its input and those faces:
  `RollOutcome` for `calculateDiceRoll`, `BatchOutcome` for the batch loop and `ParseSpec`
  for `parseDiceRoll`.
- What the code promises is proved about those functions as lemmas.

The model follows the code, including where the code does less than its comments
announce:

- The dice count is a single digit. In `3#12f` the match is `2f` at position 3.
- The value of one roll is `diceCount × (face − offset)`. The count multiplies a single
  face; it does not say how many dice are summed.
- The `kh`/`kl` clause is parsed into the model, but it does not change the rolls.
- Only a word that is exactly one `N#` batch gives a value.
- The chaining branch and the single-roll branch are empty, so every other word gives
  `undefined`.
- The input of each result is the word minus its first two characters, whatever the
  length of the `N#` prefix. `10#1f` gives `#1f`.
- A dice count of 0 makes `reduce` throw when at least one result is asked for.

## Model

| member | source | states |
|---|---|---|
| JsNumbers.DecimalValueOfNatToString | dice-rolls.js:30 | `parseInt` of the decimal rendering of a natural number gives that number back |
| JsNumbers.ParseIntOfIntToString | dice-rolls.js:38 | the rendering of any integer is an optionally signed digit string, and parsing it gives the integer back |
| JsNumbers.IntToStringInjective | dice-rolls.js:69 | two numbers with the same decimal rendering are equal, so the string order `sort()` uses is an order on the numbers |
| JsSort.StrLeTotal | dice-rolls.js:69 | any two strings are comparable in code-unit order |
| JsSort.StrLeTransitive | dice-rolls.js:69 | the string order is transitive |
| JsSort.StrLeAntisymmetric | dice-rolls.js:69 | two strings each at most the other are equal |
| JsSort.InsertPermutes | dice-rolls.js:69 | inserting an element adds exactly that element to the multiset |
| JsSort.InsertSorted | dice-rolls.js:69 | inserting into a sorted sequence keeps it sorted |
| JsSort.SortSpec | dice-rolls.js:69 | `sort()` returns its elements in the order of their decimal renderings, as a permutation of the input with the same length |
| JsSort.SortUnique | dice-rolls.js:69 | any sorted permutation of the input is the result of `sort()`, so the result is determined by the multiset of values |
| JsSort.SortedPermutationsEqual | dice-rolls.js:69 | two sorted sequences with the same elements are equal |
| JsSort.SortIsByRendering | dice-rolls.js:69 | the default sort puts 10 before 2 and −1 before −5 before 3 |
| DicePattern.DigitRun | dice-rolls.js:5 | a greedy `\d+` run: every character in it is a digit and the character after it is not |
| DicePattern.KeepAt | dice-rolls.js:5 | the optional `kh<digits>` or `kl<digits>` group: at most one of the two captured, the digits greedy, nothing captured exactly when no keep clause starts there |
| DicePattern.ModifierAt | dice-rolls.js:5 | the optional `[+-]?\d+` group: a sign only together with digits, the digits greedy, nothing consumed exactly when no signed or unsigned digit run starts there |
| DicePattern.BodyAt | dice-rolls.js:5 | the body after the optional prefix matches exactly when a digit and a die letter start there; the match is well formed, greedy and occurs at its index |
| DicePattern.MatchAt | dice-rolls.js:5 | an anchored attempt at one position: well formed, greedy, its text found at that position |
| DicePattern.SearchFrom | dice-rolls.js:5 | the first position from the start at which an attempt succeeds, or None when none does |
| DicePattern.Exec | dice-rolls.js:83 | `exec` on a fresh global regex: the leftmost match, well formed and greedy, or null exactly when no position matches |
| DicePattern.DigitRunExact | dice-rolls.js:5 | a digit run that ends before a non-digit has exactly the greedy length |
| DicePattern.MatchAtIff | dice-rolls.js:5 | an attempt succeeds exactly when a plain body or an `N#`-prefixed body starts there; the prefixed form wins and captures the digits before `#` |
| DicePattern.ExecSingleDigitCount | dice-rolls.js:5 | in `3#12f` the match is `2f` at index 3, with no prefix, because `(\d)` takes one digit |
| DicePattern.ExecTrailingSign | dice-rolls.js:5 | in `3#1f+` the sign without digits is left out of the match `3#1f` |
| DicePattern.ExecUnsignedAmount | dice-rolls.js:5 | in `3#1f5` the digits are captured as the amount with no sign |
| DicePattern.ExecGreedyKeep | dice-rolls.js:5 | in `1fkh23` the keep group takes both digits `23` and no amount is captured |
| DicePattern.ExecPlainBatch | dice-rolls.js:5 | a word `<digits>#<digit><die letter>` is matched whole, at index 0, with only the prefix, count and die captured |
| DiceModels.Translate | dice-rolls.js:24-41 | a null match gives a null model; a model is a batch exactly when it has a batch count; its dice count is a digit and its die a pattern letter |
| DiceModels.TranslateFields | dice-rolls.js:27-40 | each field read off its groups: batch and its count, dice count and type, keep rule exactly for `kh`/`kl` and highest exactly for `kh`, static modifier exactly when a sign was captured, negative exactly for `-` with a non-zero amount |
| Rolling.GetRandomInt | dice-rolls.js:13-17 | an integer between min and max, both inclusive |
| Rolling.RollValueBounds | dice-rolls.js:52-56 | a roll of n dice lies between n × (1 − offset) and n × (sides − offset) and is a multiple of n |
| Rolling.RollDiceByType | dice-rolls.js:49-60 | f, r and t draw one face from 1..12, 1..18 and 1..24 and give n × (face − 6, 9 or 12); any other letter throws the unknown-die-type error |
| Rolling.CalculateDiceRoll | dice-rolls.js:62-70 | throws exactly for an unknown die and a positive count; otherwise returns diceCount rolls in default `sort()` order, each a value a face of the die gives; the result equals `RollOutcome` of the faces drawn, one in-range face per die |
| Rolling.RollOutcomeSpec | dice-rolls.js:62-70 | rolling throws exactly for an unknown die and a positive count; otherwise it gives n rolls, sorted, a permutation of the drawn values, each one a value a face of the die gives |
| Rolling.FoldSum | dice-rolls.js:84 | the left fold of `reduce` adds the accumulator and the total of the rest |
| Rolling.Sum | dice-rolls.js:84 | `reduce` with no initial value throws exactly on an empty array, otherwise gives the total |
| Rolling.TotalPermutation | dice-rolls.js:84 | the total does not depend on order, so the sum of the sorted rolls is the sum of the drawn values |
| DiceParser.ToLowerIdempotent | dice-rolls.js:82 | lowercasing a lowercased word changes nothing |
| DiceParser.BatchModel | dice-rolls.js:83-91 | the model is kept exactly for a batch word, whose match is the whole word; then it has a batch count |
| DiceParser.RollBatch | dice-rolls.js:93-100 | the batch loop throws exactly when its first pass does (a dice count of 0 gives the `reduce` error); otherwise it returns one dice result per pass; the outcome equals `BatchOutcome` of the faces drawn |
| DiceParser.ParseDiceRoll | dice-rolls.js:81-116 | `undefined` exactly for a word that is not a batch word; throws exactly for a batch of at least one result of 0 dice, with the `reduce` error; otherwise a list as long as the batch count; the result equals `ParseSpec` of the faces drawn |
| DiceParser.ParseUndefinedIff | dice-rolls.js:86-116 | the result is `undefined` exactly when the word is not a batch word; a batch match starts at position 0 |
| DiceParser.ParseCaseInsensitive | dice-rolls.js:82 | a word and its lower-case form give the same result |
| DiceParser.BatchThrowsIff | dice-rolls.js:93-98 | the batch loop throws exactly when it runs at least once with a dice count of 0, and then with the `reduce` error; for a pattern die letter the unknown-die error never arises |
| DiceParser.BatchShape | dice-rolls.js:93-100 | each result: n rolls, sorted, a permutation of the values drawn, each a value of the die; its total as result; the model's amount as modifier; the word from its third character as input |
| DiceParser.ParseThrowsIff | dice-rolls.js:81-100 | `parseDiceRoll` throws exactly for a batch word asking for at least one result of 0 dice, and then with the `reduce` error |
| DiceParser.ParseBatchShape | dice-rolls.js:89-100 | a returned list has as many entries as the batch count, each shaped as `BatchShape` states |
| DiceParser.BatchModelOfPlainBatch | dice-rolls.js:83-91 | the model of `<digits>#<digit><die letter>`: a batch of that count, that many dice of that die, no keep rule, no modifier |
| DiceParser.ParseThreeOneF | dice-rolls.js:81-100 | `3#1F` gives three results of one roll each, with input `1f` |
| DiceParser.ParseTenOneF | dice-rolls.js:97 | `10#1f` gives ten results with input `#1f` |
| DiceParser.ParseZeroDice | dice-rolls.js:84-97 | `3#0f` throws the `reduce` error |
| DiceParser.ParseZeroResults | dice-rolls.js:93-100 | `0#1f` gives an empty list |
| DiceParser.ParseTrailingSign | dice-rolls.js:89-91 | `3#1f+` gives `undefined`, because the match is not the whole word |
| DiceParser.ParseSingleRoll | dice-rolls.js:103-116 | the single roll `2f` gives `undefined` |

## Left out

- `main.js` and `register-commands.js` are not part of this model. They cover the Discord client, the message events, the slash-command registration and the environment variables; all of that is I/O.
- Rolling.GetRandomInt: modelled only by its documented contract, an integer in [min, max]. `Math.random`, `Math.ceil` and `Math.floor` are not modelled. The only arguments passed are integers.
- DiceParser.LowerChar: lowercases A–Z and the Kelvin sign, which becomes `k`. Other Unicode case mappings are not modelled, including the ones that lengthen a string. They map only to characters outside the pattern, so a word containing one is not a batch word either way, and the result stays `undefined`.
- JavaScript strings are UTF-16 code units; here a character is a Unicode scalar value. The two differ only for characters outside the pattern, which again only ever give `undefined`.
- Numbers are unbounded integers. `parseInt` losing precision above 2^53, and the rendering of such numbers in `sort()`, are not modelled. Negative zero is not modelled either: for `3#1f-0`, JavaScript's `parseInt("-0")` gives −0, so each result carries a static modifier of −0, where the model gives `Some(0)`.
- JsSort.Sort: `sort()` works in place on the array. The model sorts a sequence value, and the sorting algorithm is not modelled; the lemmas show its result is fully determined by the comparison.
- DiceModels.Translate: the dice count is a one-character string in the source, which JavaScript coerces to a number wherever it is used. Here it is that number, 0 to 9.
- The chaining of rolls and the single-roll branch that the comments describe are not implemented in the source, so they are not modelled either. Neither is a keep clause that filters rolls.
