/** `translateMatchToDiceModel`: the groups of a dice match turned into a dice model.
    The dice count stays the digit the pattern captured; the source keeps it as a
    one-character string that JavaScript coerces to its number wherever it is used, so
    here it is that number, 0 to 9. */
module DiceModels {
  import opened Common
  import opened JsNumbers
  import opened DicePattern

  datatype Keep = Keep(highest: bool, count: nat)

  datatype StaticModifier = StaticModifier(amount: int)

  datatype DiceModel = DiceModel(
    matchText: string,
    isMultipleRolls: bool,
    multipleRollCount: Option<nat>,
    diceCount: nat,
    diceType: char,
    keepXDice: Option<Keep>,
    staticModifier: Option<StaticModifier>)

  /** A null match gives a null model; otherwise each field is read off its groups. */
  function Translate(regexMatch: Option<DiceMatch>): (r: Option<DiceModel>)
    requires regexMatch.Some? ==> WellFormed(regexMatch.value)
    ensures r.None? <==> regexMatch.None?
    ensures r.Some? ==> (r.value.isMultipleRolls <==> r.value.multipleRollCount.Some?)
    ensures r.Some? ==> r.value.diceCount < 10 && IsDieLetter(r.value.diceType)
  {
    match regexMatch
    case None => None
    case Some(m) =>
      Some(DiceModel(
        matchText := m.text,
        isMultipleRolls := m.repeat.Some?,
        multipleRollCount := if m.repeat.None? then None else Some(DecimalValue(m.repeat.value)),
        diceCount := DigitValue(m.count),
        diceType := m.die,
        keepXDice :=
          if m.keepHigh.None? && m.keepLow.None? then None
          else Some(Keep(m.keepHigh.Some?, DecimalValue(if m.keepHigh.Some? then m.keepHigh.value else m.keepLow.value))),
        staticModifier :=
          if m.sign.None? then None
          else
            var text := (if m.sign.value == '+' then "" else "-") + m.amount.value;
            assert IsSignedDigits(text) by {
              if m.sign.value == '-' { assert text[1..] == m.amount.value; }
            }
            Some(StaticModifier(ParseInt(text)))))
  }

  /** What each field of the model says about the groups of the match it came from:
      a batch exactly when the `N#` prefix was captured, with the prefix's value as count;
      a keep rule exactly when `kh` or `kl` was captured, highest exactly for `kh`; and a
      static modifier exactly when a sign was captured, whose amount is the digits' value,
      negated for '-' (so it is negative exactly for '-' with a non-zero value). A digit
      run without a sign yields no modifier at all. */
  lemma TranslateFields(m: DiceMatch)
    requires WellFormed(m)
    ensures var model := Translate(Some(m)).value;
      && model.matchText == m.text
      && (model.isMultipleRolls <==> m.repeat.Some?)
      && (m.repeat.Some? ==> model.multipleRollCount == Some(DecimalValue(m.repeat.value)))
      && model.diceCount == DigitValue(m.count)
      && model.diceType == m.die
      && (model.keepXDice.None? <==> m.keepHigh.None? && m.keepLow.None?)
      && (model.keepXDice.Some? ==> (model.keepXDice.value.highest <==> m.keepHigh.Some?))
      && (m.keepHigh.Some? ==> model.keepXDice.value.count == DecimalValue(m.keepHigh.value))
      && (m.keepLow.Some? ==> model.keepXDice.value.count == DecimalValue(m.keepLow.value))
      && (model.staticModifier.Some? <==> m.sign.Some?)
      && (m.sign.Some? ==>
            model.staticModifier.value.amount ==
              (if m.sign.value == '-' then -(DecimalValue(m.amount.value) as int) else DecimalValue(m.amount.value) as int))
      && (model.staticModifier.Some? ==>
            (model.staticModifier.value.amount < 0 <==> m.sign.value == '-' && DecimalValue(m.amount.value) > 0))
  {
    if m.sign.Some? {
      var text := (if m.sign.value == '+' then "" else "-") + m.amount.value;
      if m.sign.value == '-' {
        assert text[0] == '-' && text[1..] == m.amount.value;
      } else {
        assert text == m.amount.value;
      }
    }
  }
}
