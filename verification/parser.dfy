/** `parseDiceRoll(word)`. The word is lowercased and matched; only the batch branch
    (`N#` prefix, match equal to the whole word) produces a value: a list of
    `multipleRollCount` dice results. The chaining branch and the single-roll branch have
    empty bodies, so every other word yields `undefined`. */
module DiceParser {
  import opened Common
  import opened JsNumbers
  import opened JsSort
  import opened DicePattern
  import opened DiceModels
  import opened Rolling

  /** The object `createDiceResult(result, rolls, staticModifier, input)` builds. */
  datatype DiceResult = DiceResult(result: int, rolls: seq<int>, staticModifier: Option<int>, input: string)

  /** What a call of `parseDiceRoll` ends with: `undefined`, an array of dice results, or
      an exception. */
  datatype Outcome = Undefined | Results(results: seq<DiceResult>) | Thrown(error: JsError)

  /** `toLowerCase` on one character: A-Z, and the Kelvin sign, which lowercases to 'k'. */
  function LowerChar(c: char): (r: char) {
    if 'A' <= c <= 'Z' then ((c as int) + 32) as char
    else if c == '\U{212A}' then 'k'
    else c
  }

  function ToLower(w: string): (r: string) {
    seq(|w|, k requires 0 <= k < |w| => LowerChar(w[k]))
  }

  lemma ToLowerIdempotent(w: string)
    ensures ToLower(ToLower(w)) == ToLower(w)
  {
  }

  /** `w.substring(start)`: empty when start is past the end. */
  function Substring(w: string, start: nat): (r: string) {
    if start <= |w| then w[start..] else ""
  }

  /** `diceModel.staticModifier?.amount`. */
  function ModifierAmount(model: DiceModel): (r: Option<int>) {
    if model.staticModifier.Some? then Some(model.staticModifier.value.amount) else None
  }

  /** The word takes the batch branch: the leftmost match has an `N#` prefix and is the
      whole (lowercased) word. */
  predicate IsBatchWord(lw: string) {
    var m := Exec(lw);
    m.Some? && m.value.repeat.Some? && m.value.text == lw
  }

  /** The dice model of a lowercased word when the batch branch is taken. */
  function BatchModel(lw: string): (r: Option<DiceModel>)
    ensures r.Some? <==> IsBatchWord(lw)
    ensures r.Some? ==> r.value.multipleRollCount.Some? && r.value.matchText == lw
    ensures r.Some? ==> r.value == Translate(Exec(lw)).value
  {
    var model := Translate(Exec(lw));
    if model.None? then None
    else
      TranslateFields(Exec(lw).value);
      if model.value.isMultipleRolls && model.value.matchText == lw then model else None
  }

  /** The batch loop throws on its first pass: `sum` of no rolls when the dice count is 0,
      or the unknown die type of `rollDiceByType`. */
  predicate Throws(model: DiceModel)
    requires model.multipleRollCount.Some?
  {
    model.multipleRollCount.value > 0 && (model.diceCount == 0 || DieKindOf(model.diceType).None?)
  }

  /** The faces the batch loop draws: none when it throws on its first pass, otherwise one
      sequence of faces per dice result. */
  predicate BatchDrawsFit(model: DiceModel, draws: seq<seq<int>>)
    requires model.multipleRollCount.Some?
  {
    if Throws(model) then draws == []
    else
      && |draws| == model.multipleRollCount.value
      && forall k :: 0 <= k < |draws| ==> FacesFor(model.diceType, model.diceCount, draws[k])
  }

  /** The faces a call of `parseDiceRoll` draws: none outside the batch branch. */
  predicate DrawsFit(word: string, draws: seq<seq<int>>) {
    var batch := BatchModel(ToLower(word));
    if batch.None? then draws == [] else BatchDrawsFit(batch.value, draws)
  }

  /** One pass of the batch loop: the dice result built from the faces drawn. */
  function Entry(model: DiceModel, lw: string, faces: seq<int>): (r: DiceResult)
    requires model.diceCount > 0 && DieKindOf(model.diceType).Some?
    requires FacesFor(model.diceType, model.diceCount, faces)
  {
    RollOutcomeSpec(model.diceType, model.diceCount, faces);
    var rolls := RollOutcome(model.diceType, model.diceCount, faces).value;
    DiceResult(Sum(rolls).value, rolls, ModifierAmount(model), Substring(lw, 2))
  }

  /** What the batch branch ends with, given the faces drawn. */
  function BatchOutcome(model: DiceModel, lw: string, draws: seq<seq<int>>): (r: Outcome)
    requires model.multipleRollCount.Some? && BatchDrawsFit(model, draws)
  {
    var count := model.multipleRollCount.value;
    if count > 0 && model.diceCount == 0 then Thrown(ReduceOfEmptyArray)
    else if count > 0 && DieKindOf(model.diceType).None? then Thrown(UnknownDiceType(model.diceType))
    else Results(seq(count, k requires 0 <= k < count => Entry(model, lw, draws[k])))
  }

  /** What `parseDiceRoll(word)` ends with, given the faces it draws. */
  function ParseSpec(word: string, draws: seq<seq<int>>): (r: Outcome)
    requires DrawsFit(word, draws)
  {
    var lw := ToLower(word);
    match BatchModel(lw)
    case None => Undefined
    case Some(model) => BatchOutcome(model, lw, draws)
  }

  /** The batch branch of `parseDiceRoll`: `multipleRollCount` passes, each rolling the
      dice, summing them and pushing a dice result. */
  method RollBatch(model: DiceModel, lw: string) returns (out: Outcome, ghost draws: seq<seq<int>>)
    requires model.multipleRollCount.Some?
    ensures out.Thrown? <==> Throws(model)
    ensures out.Thrown? && model.diceCount == 0 ==> out.error == ReduceOfEmptyArray
    ensures out.Results? <==> !Throws(model)
    ensures out.Results? ==> |out.results| == model.multipleRollCount.value
    ensures BatchDrawsFit(model, draws)
    ensures out == BatchOutcome(model, lw, draws)
  {
    var count := model.multipleRollCount.value;
    var rolls: seq<DiceResult> := [];
    draws := [];
    for i := 0 to count
      invariant |rolls| == i && |draws| == i
      invariant i > 0 ==> model.diceCount > 0 && DieKindOf(model.diceType).Some?
      invariant forall k :: 0 <= k < i ==>
        FacesFor(model.diceType, model.diceCount, draws[k]) && rolls[k] == Entry(model, lw, draws[k])
    {
      var diceRolls;
      ghost var faces;
      diceRolls, faces := CalculateDiceRoll(model.diceType, model.diceCount);
      if diceRolls.Failure? {
        return Thrown(diceRolls.error), [];
      }
      RollOutcomeSpec(model.diceType, model.diceCount, faces);
      var total := Sum(diceRolls.value);
      if total.Failure? {
        return Thrown(total.error), [];
      }
      rolls := rolls + [DiceResult(total.value, diceRolls.value, ModifierAmount(model), Substring(lw, 2))];
      draws := draws + [faces];
    }
    assert rolls == seq(count, k requires 0 <= k < count => Entry(model, lw, draws[k]));
    return Results(rolls), draws;
  }

  /** `parseDiceRoll(word)`. */
  method ParseDiceRoll(word: string) returns (out: Outcome, ghost draws: seq<seq<int>>)
    ensures out.Undefined? <==> !IsBatchWord(ToLower(word))
    ensures out.Thrown? <==>
      var batch := BatchModel(ToLower(word));
      batch.Some? && batch.value.multipleRollCount.value > 0 && batch.value.diceCount == 0
    ensures out.Thrown? ==> out.error == ReduceOfEmptyArray
    ensures out.Results? ==> |out.results| == BatchModel(ToLower(word)).value.multipleRollCount.value
    ensures DrawsFit(word, draws)
    ensures out == ParseSpec(word, draws)
  {
    var lw := ToLower(word);
    var diceModel := Translate(Exec(lw));
    if diceModel.None? {
      out, draws := Undefined, [];
    } else if diceModel.value.isMultipleRolls {
      if diceModel.value.matchText != lw {
        out, draws := Undefined, [];
      } else {
        out, draws := RollBatch(diceModel.value, lw);
      }
    } else {
      // The chaining branch and the single-roll branch are empty: `undefined`.
      out, draws := Undefined, [];
    }
    ParseUndefinedIff(word, draws);
    ParseThrowsIff(word, draws);
    if out.Results? {
      ParseBatchShape(word, draws);
    }
  }

  /** Only a batch word gives a value: the result is `undefined` exactly when the leftmost
      match of the lowercased word lacks the `N#` prefix or is not the whole word; and a
      batch match, being the whole word, starts at position 0. */
  lemma ParseUndefinedIff(word: string, draws: seq<seq<int>>)
    requires DrawsFit(word, draws)
    ensures ParseSpec(word, draws).Undefined? <==> !IsBatchWord(ToLower(word))
    ensures IsBatchWord(ToLower(word)) ==> Exec(ToLower(word)).value.index == 0
  {
  }

  /** Upper-case input behaves like its lower-case form. */
  lemma ParseCaseInsensitive(word: string, draws: seq<seq<int>>)
    requires DrawsFit(word, draws)
    ensures DrawsFit(ToLower(word), draws)
    ensures ParseSpec(ToLower(word), draws) == ParseSpec(word, draws)
  {
    ToLowerIdempotent(word);
  }

  /** The batch loop throws exactly when it is to produce at least one result of 0 dice
      (`sum` then reduces an empty array); for a die letter of the pattern the
      unknown-die-type exception never arises. */
  lemma BatchThrowsIff(model: DiceModel, lw: string, draws: seq<seq<int>>)
    requires model.multipleRollCount.Some? && BatchDrawsFit(model, draws)
    requires IsDieLetter(model.diceType)
    ensures BatchOutcome(model, lw, draws).Thrown? <==> model.multipleRollCount.value > 0 && model.diceCount == 0
    ensures BatchOutcome(model, lw, draws).Thrown? ==> BatchOutcome(model, lw, draws).error == ReduceOfEmptyArray
  {
  }

  /** Each pass of a completed batch loop: as many rolls as the dice count (a keep clause
      changes nothing), each a value a face of the die gives for that many dice, the values
      drawn reordered by the default `sort()`; the result is their total, the static
      modifier the model's amount, the input the word without its first two characters. */
  lemma BatchShape(model: DiceModel, lw: string, draws: seq<seq<int>>)
    requires model.multipleRollCount.Some? && BatchDrawsFit(model, draws)
    requires BatchOutcome(model, lw, draws).Results?
    requires IsDieLetter(model.diceType)
    ensures var results := BatchOutcome(model, lw, draws).results;
      var n := model.diceCount;
      var kind := DieKindOf(model.diceType).value;
      && |results| == model.multipleRollCount.value == |draws|
      && forall k :: 0 <= k < |results| ==>
          && |results[k].rolls| == n
          && Sorted(results[k].rolls)
          && multiset(results[k].rolls) == multiset(Scaled(kind, n, draws[k]))
          && (forall j :: 0 <= j < n ==> IsRollOf(kind, n, results[k].rolls[j]))
          && results[k].result == Total(results[k].rolls) == Total(Scaled(kind, n, draws[k]))
          && results[k].staticModifier ==
               (if model.staticModifier.None? then None else Some(model.staticModifier.value.amount))
          && results[k].input == Substring(lw, 2)
  {
    var results := BatchOutcome(model, lw, draws).results;
    var kind := DieKindOf(model.diceType).value;
    forall k | 0 <= k < |results|
      ensures results[k] == Entry(model, lw, draws[k])
      ensures |results[k].rolls| == model.diceCount
      ensures Sorted(results[k].rolls)
      ensures multiset(results[k].rolls) == multiset(Scaled(kind, model.diceCount, draws[k]))
      ensures forall j :: 0 <= j < model.diceCount ==> IsRollOf(kind, model.diceCount, results[k].rolls[j])
      ensures results[k].result == Total(results[k].rolls) == Total(Scaled(kind, model.diceCount, draws[k]))
    {
      RollOutcomeSpec(model.diceType, model.diceCount, draws[k]);
      TotalPermutation(results[k].rolls, Scaled(kind, model.diceCount, draws[k]));
    }
  }

  /** `parseDiceRoll` throws exactly for a batch word asking for at least one result of 0
      dice, and then with the TypeError of `reduce`. */
  lemma ParseThrowsIff(word: string, draws: seq<seq<int>>)
    requires DrawsFit(word, draws)
    ensures ParseSpec(word, draws).Thrown? <==>
      var batch := BatchModel(ToLower(word));
      batch.Some? && batch.value.multipleRollCount.value > 0 && batch.value.diceCount == 0
    ensures ParseSpec(word, draws).Thrown? ==> ParseSpec(word, draws).error == ReduceOfEmptyArray
  {
    var lw := ToLower(word);
    var batch := BatchModel(lw);
    if batch.Some? {
      BatchThrowsIff(batch.value, lw, draws);
    }
  }

  /** The dice results `parseDiceRoll` returns for a batch word: `multipleRollCount` of
      them, each shaped as `BatchShape` states, its input being the lowercased word minus
      its first two characters. */
  lemma ParseBatchShape(word: string, draws: seq<seq<int>>)
    requires DrawsFit(word, draws)
    requires ParseSpec(word, draws).Results?
    ensures var lw := ToLower(word);
      var model := BatchModel(lw).value;
      var results := ParseSpec(word, draws).results;
      var n := model.diceCount;
      var kind := DieKindOf(model.diceType).value;
      && IsBatchWord(lw)
      && |results| == model.multipleRollCount.value == |draws|
      && forall k :: 0 <= k < |results| ==>
          && |results[k].rolls| == n
          && Sorted(results[k].rolls)
          && multiset(results[k].rolls) == multiset(Scaled(kind, n, draws[k]))
          && (forall j :: 0 <= j < n ==> IsRollOf(kind, n, results[k].rolls[j]))
          && results[k].result == Total(results[k].rolls) == Total(Scaled(kind, n, draws[k]))
          && results[k].staticModifier ==
               (if model.staticModifier.None? then None else Some(model.staticModifier.value.amount))
          && results[k].input == lw[2..]
  {
    var lw := ToLower(word);
    var model := BatchModel(lw).value;
    assert |lw| >= 2;
    BatchShape(model, lw, draws);
  }

  /** The model of a plain batch word `<digits>#<digit><die letter>`. */
  lemma BatchModelOfPlainBatch(r: string, c: char, l: char)
    requires IsDigits(r) && IsDigit(c) && IsDieLetter(l)
    ensures var w := r + "#" + [c, l];
      BatchModel(w) == Some(DiceModel(w, true, Some(DecimalValue(r)), DigitValue(c), l, None, None))
  {
    ExecPlainBatch(r, c, l);
  }

  lemma ThreeOneFLower()
    ensures ToLower("3#1F") == "3#1f"
  {
  }

  lemma ThreeOneFModel()
    ensures BatchModel("3#1f") == Some(DiceModel("3#1f", true, Some(3), 1, 'f', None, None))
  {
    BatchModelOfPlainBatch("3", '1', 'f');
    assert "3" + "#" + ['1', 'f'] == "3#1f";
    assert DecimalValue("3") == 3;
  }

  /** "3#1F" gives three results of one f die, each with input "1f", as its lower-case form
      does. */
  lemma ParseThreeOneF(draws: seq<seq<int>>)
    requires DrawsFit("3#1F", draws)
    ensures var out := ParseSpec("3#1F", draws);
      out.Results? && |out.results| == 3 &&
      forall k :: 0 <= k < 3 ==> out.results[k].input == "1f" && |out.results[k].rolls| == 1
  {
    ThreeOneFLower();
    ThreeOneFModel();
    ParseBatchShape("3#1F", draws);
    assert "3#1f"[2..] == "1f";
  }

  lemma TenOneFLower()
    ensures ToLower("10#1f") == "10#1f"
  {
  }

  lemma TenDecimal()
    ensures IsDigits("10") && DecimalValue("10") == 10
  {
    assert "10"[..1] == "1";
  }

  lemma TenOneFModel()
    ensures BatchModel("10#1f") == Some(DiceModel("10#1f", true, Some(10), 1, 'f', None, None))
  {
    TenDecimal();
    BatchModelOfPlainBatch("10", '1', 'f');
    assert "10" + "#" + ['1', 'f'] == "10#1f";
  }

  /** "10#1f" gives ten results whose input is "#1f": `substring(2)` drops two characters
      whatever the length of the prefix. */
  lemma ParseTenOneF(draws: seq<seq<int>>)
    requires DrawsFit("10#1f", draws)
    ensures var out := ParseSpec("10#1f", draws);
      out.Results? && |out.results| == 10 && forall k :: 0 <= k < 10 ==> out.results[k].input == "#1f"
  {
    TenOneFLower();
    TenOneFModel();
    ParseBatchShape("10#1f", draws);
    assert "10#1f"[2..] == "#1f";
  }

  lemma ZeroDiceLower()
    ensures ToLower("3#0f") == "3#0f"
  {
  }

  lemma ZeroDiceModel()
    ensures BatchModel("3#0f") == Some(DiceModel("3#0f", true, Some(3), 0, 'f', None, None))
  {
    BatchModelOfPlainBatch("3", '0', 'f');
    assert "3" + "#" + ['0', 'f'] == "3#0f";
    assert DecimalValue("3") == 3;
  }

  lemma ZeroDiceDraws()
    ensures DrawsFit("3#0f", [])
  {
    ZeroDiceLower();
    ZeroDiceModel();
    assert Throws(DiceModel("3#0f", true, Some(3), 0, 'f', None, None));
  }

  /** "3#0f" throws: each pass rolls no dice and `sum` reduces an empty array. */
  lemma ParseZeroDice()
    ensures DrawsFit("3#0f", []) && ParseSpec("3#0f", []) == Thrown(ReduceOfEmptyArray)
  {
    ZeroDiceLower();
    ZeroDiceModel();
    ZeroDiceDraws();
  }

  lemma ZeroResultsLower()
    ensures ToLower("0#1f") == "0#1f"
  {
  }

  lemma ZeroResultsModel()
    ensures BatchModel("0#1f") == Some(DiceModel("0#1f", true, Some(0), 1, 'f', None, None))
  {
    BatchModelOfPlainBatch("0", '1', 'f');
    assert "0" + "#" + ['1', 'f'] == "0#1f";
    assert DecimalValue("0") == 0;
  }

  lemma ZeroResultsDraws()
    ensures DrawsFit("0#1f", [])
  {
    ZeroResultsLower();
    ZeroResultsModel();
    assert !Throws(DiceModel("0#1f", true, Some(0), 1, 'f', None, None));
  }

  /** "0#1f" makes no pass of the batch loop and gives an empty list. */
  lemma ParseZeroResults()
    ensures DrawsFit("0#1f", []) && ParseSpec("0#1f", []) == Results([])
  {
    ZeroResultsLower();
    ZeroResultsModel();
    ZeroResultsDraws();
  }

  lemma TrailingSignLower()
    ensures ToLower("3#1f+") == "3#1f+"
  {
  }

  lemma TrailingSignModel()
    ensures BatchModel("3#1f+") == None
  {
    ExecTrailingSign();
  }

  /** "3#1f+" gives `undefined`: the sign stays outside the match, so the match is not the
      whole word. */
  lemma ParseTrailingSign()
    ensures DrawsFit("3#1f+", []) && ParseSpec("3#1f+", []) == Undefined
  {
    TrailingSignLower();
    TrailingSignModel();
  }

  /** The single roll "2f" gives `undefined`: that branch has no body. */
  lemma ParseSingleRoll()
    ensures DrawsFit("2f", []) && ParseSpec("2f", []) == Undefined
  {
    var w := "2f";
    assert ToLower(w) == w;
    assert BodyStartsAt(w, 0);
    MatchAtIff(w, 0);
    assert Exec(w).value.repeat.None?;
  }
}
