/** The dice pattern of `getDiceParsingRegex`,

      (?:(\d+)#)?(\d)([frt]{1})(?:(?:(kh)(\d+))|(?:(kl)(\d+)))?(?:([\+\-])?(\d+))?

    matched by hand with the backtracking order of a JavaScript regular expression:
    every optional part is tried before it is skipped, the `kh` branch before the `kl`
    branch, and every `\d+` is greedy. `Exec` is `exec` on a freshly built `/g` regex,
    whose `lastIndex` is 0: the leftmost position that matches wins. */
module DicePattern {
  import opened Common
  import opened JsNumbers

  predicate IsDieLetter(c: char) { c == 'f' || c == 'r' || c == 't' }

  predicate IsSign(c: char) { c == '+' || c == '-' }

  /** A `RegExpMatchArray` of the dice pattern. `index` is where the match starts and
      `text` is group 0. Groups 4 and 5 (`kh` and its digits) always occur together and
      are kept as `keepHigh`; likewise groups 6 and 7 as `keepLow`. */
  datatype DiceMatch = DiceMatch(
    index: nat,
    text: string,
    repeat: Option<string>,    // group 1: the digits before '#'
    count: char,               // group 2: exactly one digit
    die: char,                 // group 3
    keepHigh: Option<string>,  // groups 4-5: the digits after "kh"
    keepLow: Option<string>,   // groups 6-7: the digits after "kl"
    sign: Option<char>,        // group 8
    amount: Option<string>)    // group 9

  function OptText(o: Option<string>): (r: string) {
    if o.Some? then o.value else ""
  }

  function KeepText(keepHigh: Option<string>, keepLow: Option<string>): (r: string) {
    (if keepHigh.Some? then "kh" + keepHigh.value else "") +
    (if keepLow.Some? then "kl" + keepLow.value else "")
  }

  function ModifierText(sign: Option<char>, amount: Option<string>): (r: string) {
    (if sign.Some? then [sign.value] else "") + OptText(amount)
  }

  /** The text the groups of a match spell out, in pattern order. */
  function Render(m: DiceMatch): (r: string) {
    (if m.repeat.Some? then m.repeat.value + "#" else "") +
    [m.count, m.die] + KeepText(m.keepHigh, m.keepLow) + ModifierText(m.sign, m.amount)
  }

  /** What the pattern admits for each group. */
  predicate WellFormed(m: DiceMatch) {
    && (m.repeat.Some? ==> IsDigits(m.repeat.value))
    && IsDigit(m.count)
    && IsDieLetter(m.die)
    && !(m.keepHigh.Some? && m.keepLow.Some?)
    && (m.keepHigh.Some? ==> IsDigits(m.keepHigh.value))
    && (m.keepLow.Some? ==> IsDigits(m.keepLow.value))
    && (m.sign.Some? ==> IsSign(m.sign.value) && m.amount.Some?)
    && (m.amount.Some? ==> IsDigits(m.amount.value))
    && m.text == Render(m)
  }

  /** A keep clause `kh<digits>` or `kl<digits>` starts at p. */
  predicate KeepStartsAt(w: string, p: nat) {
    p + 2 < |w| && w[p] == 'k' && (w[p + 1] == 'h' || w[p + 1] == 'l') && IsDigit(w[p + 2])
  }

  /** A signed modifier `+<digits>` or `-<digits>` starts at q. */
  predicate SignedModifierStartsAt(w: string, q: nat) {
    q + 1 < |w| && IsSign(w[q]) && IsDigit(w[q + 1])
  }

  /** The match found at `m.index` cannot be made longer by any optional part it left out:
      every digit run is greedy (so the keep digits leave no unsigned amount behind them),
      and an omitted keep clause or modifier is really absent. */
  predicate Greedy(w: string, m: DiceMatch) {
    var e := m.index + |m.text|;
    && e <= |w|
    && (e == |w| || !IsDigit(w[e]))
    && (m.amount.None? ==> !SignedModifierStartsAt(w, e))
    && (m.keepHigh.None? && m.keepLow.None? && m.amount.None? ==> !KeepStartsAt(w, e))
    && ((m.keepHigh.Some? || m.keepLow.Some?) && m.sign.None? ==> m.amount.None?)
  }

  /** The number of digits a greedy `\d+` takes at i (0 when there is none). */
  function DigitRun(w: string, i: nat): (n: nat)
    requires i <= |w|
    ensures i + n <= |w|
    ensures forall k :: i <= k < i + n ==> IsDigit(w[k])
    ensures i + n == |w| || !IsDigit(w[i + n])
    decreases |w| - i
  {
    if i < |w| && IsDigit(w[i]) then 1 + DigitRun(w, i + 1) else 0
  }

  datatype KeepPart = KeepPart(high: Option<string>, low: Option<string>, end: nat)

  /** `(?:(?:(kh)(\d+))|(?:(kl)(\d+)))?` at p. */
  function KeepAt(w: string, p: nat): (k: KeepPart)
    requires p <= |w|
    ensures p <= k.end <= |w|
    ensures w[p..k.end] == KeepText(k.high, k.low)
    ensures !(k.high.Some? && k.low.Some?)
    ensures k.high.Some? ==> IsDigits(k.high.value)
    ensures k.low.Some? ==> IsDigits(k.low.value)
    ensures k.high.None? && k.low.None? <==> !KeepStartsAt(w, p)
    ensures k.end == p || k.end == |w| || !IsDigit(w[k.end])
    ensures k.high.None? && k.low.None? ==> k.end == p
  {
    if p + 2 < |w| && w[p] == 'k' && w[p + 1] == 'h' && IsDigit(w[p + 2]) then
      var n := DigitRun(w, p + 2);
      assert w[p..p + 2 + n] == "kh" + w[p + 2..p + 2 + n];
      KeepPart(Some(w[p + 2..p + 2 + n]), None, p + 2 + n)
    else if p + 2 < |w| && w[p] == 'k' && w[p + 1] == 'l' && IsDigit(w[p + 2]) then
      var n := DigitRun(w, p + 2);
      assert w[p..p + 2 + n] == "kl" + w[p + 2..p + 2 + n];
      KeepPart(None, Some(w[p + 2..p + 2 + n]), p + 2 + n)
    else
      KeepPart(None, None, p)
  }

  datatype ModifierPart = ModifierPart(sign: Option<char>, amount: Option<string>, end: nat)

  /** `(?:([\+\-])?(\d+))?` at q: a sign is taken only when digits follow it. */
  function ModifierAt(w: string, q: nat): (md: ModifierPart)
    requires q <= |w|
    ensures q <= md.end <= |w|
    ensures w[q..md.end] == ModifierText(md.sign, md.amount)
    ensures md.sign.Some? ==> IsSign(md.sign.value) && md.amount.Some?
    ensures md.amount.Some? ==> IsDigits(md.amount.value)
    ensures md.end == |w| || !IsDigit(w[md.end])
    ensures md.amount.None? ==> md.end == q && !SignedModifierStartsAt(w, q)
  {
    if q + 1 < |w| && IsSign(w[q]) && IsDigit(w[q + 1]) then
      var n := DigitRun(w, q + 1);
      assert w[q..q + 1 + n] == [w[q]] + w[q + 1..q + 1 + n];
      ModifierPart(Some(w[q]), Some(w[q + 1..q + 1 + n]), q + 1 + n)
    else if q < |w| && IsDigit(w[q]) then
      var n := DigitRun(w, q);
      ModifierPart(None, Some(w[q..q + n]), q + n)
    else
      ModifierPart(None, None, q)
  }

  /** A dice count digit followed by a die letter starts at j. */
  predicate BodyStartsAt(w: string, j: nat) {
    j + 1 < |w| && IsDigit(w[j]) && IsDieLetter(w[j + 1])
  }

  /** At i stand `d` digits, a '#', then a dice count digit and a die letter. */
  predicate PrefixedBodyAt(w: string, i: nat, d: nat) {
    && d > 0
    && i + d < |w|
    && (forall k :: i <= k < i + d ==> IsDigit(w[k]))
    && w[i + d] == '#'
    && BodyStartsAt(w, i + d + 1)
  }

  lemma SliceConcat(w: string, a: nat, b: nat, c: nat)
    requires a <= b <= c <= |w|
    ensures w[a..b] + w[b..c] == w[a..c]
  {
  }

  /** Everything after the optional `N#`, matched at j and reported with `repeat`. */
  function BodyAt(w: string, i: nat, repeat: Option<string>, j: nat): (r: Option<DiceMatch>)
    requires i <= j <= |w|
    requires repeat.Some? ==> IsDigits(repeat.value) && w[i..j] == repeat.value + "#"
    requires repeat.None? ==> i == j
    ensures r.Some? <==> BodyStartsAt(w, j)
    ensures r.Some? ==> r.value.index == i && r.value.repeat == repeat
    ensures r.Some? ==> WellFormed(r.value) && Greedy(w, r.value)
    ensures r.Some? ==> w[i..i + |r.value.text|] == r.value.text
  {
    if BodyStartsAt(w, j) then
      var k := KeepAt(w, j + 2);
      var md := ModifierAt(w, k.end);
      var m := DiceMatch(i, w[i..md.end], repeat, w[j], w[j + 1], k.high, k.low, md.sign, md.amount);
      BodyMatchFacts(w, i, repeat, j, k, md, m);
      Some(m)
    else
      None
  }

  lemma BodyMatchFacts(w: string, i: nat, repeat: Option<string>, j: nat, k: KeepPart, md: ModifierPart, m: DiceMatch)
    requires i <= j && BodyStartsAt(w, j)
    requires repeat.Some? ==> IsDigits(repeat.value) && w[i..j] == repeat.value + "#"
    requires repeat.None? ==> i == j
    requires k == KeepAt(w, j + 2) && md == ModifierAt(w, k.end)
    requires m == DiceMatch(i, w[i..md.end], repeat, w[j], w[j + 1], k.high, k.low, md.sign, md.amount)
    ensures WellFormed(m) && Greedy(w, m)
  {
    SpellOut(w, i, j, k.end, md.end, if repeat.Some? then repeat.value + "#" else "",
      KeepText(k.high, k.low), ModifierText(md.sign, md.amount));
  }

  lemma SpellOut(w: string, i: nat, j: nat, e1: nat, e2: nat, prefix: string, keep: string, modifier: string)
    requires i <= j && j + 2 <= e1 <= e2 <= |w|
    requires w[i..j] == prefix && w[j + 2..e1] == keep && w[e1..e2] == modifier
    ensures w[i..e2] == prefix + [w[j], w[j + 1]] + keep + modifier
  {
    SliceConcat(w, j + 2, e1, e2);
    SliceConcat(w, j, j + 2, e2);
    SliceConcat(w, i, j, e2);
    assert w[j..j + 2] == [w[j], w[j + 1]];
  }

  /** The match attempt at position i: first with the `N#` prefix when a digit run and a
      '#' stand there, and if the rest fails after it, again without the prefix. */
  function MatchAt(w: string, i: nat): (r: Option<DiceMatch>)
    requires i <= |w|
    ensures r.Some? ==> r.value.index == i && WellFormed(r.value) && Greedy(w, r.value)
    ensures r.Some? ==> w[i..i + |r.value.text|] == r.value.text
  {
    var d := DigitRun(w, i);
    var prefixed :=
      if d > 0 && i + d < |w| && w[i + d] == '#' then
        assert w[i..i + d + 1] == w[i..i + d] + "#";
        BodyAt(w, i, Some(w[i..i + d]), i + d + 1)
      else None;
    if prefixed.Some? then prefixed else BodyAt(w, i, None, i)
  }

  /** The leftmost match at or after i. */
  function SearchFrom(w: string, i: nat): (r: Option<DiceMatch>)
    requires i <= |w|
    ensures r.Some? ==> i <= r.value.index <= |w| && MatchAt(w, r.value.index) == r
    ensures r.Some? ==> forall j :: i <= j < r.value.index ==> MatchAt(w, j).None?
    ensures r.None? ==> forall j :: i <= j <= |w| ==> MatchAt(w, j).None?
    decreases |w| - i
  {
    var here := MatchAt(w, i);
    if here.Some? then here
    else if i == |w| then None
    else SearchFrom(w, i + 1)
  }

  /** `getDiceParsingRegex().exec(w)`: null when no position matches, otherwise the
      match at the leftmost position that matches. */
  function Exec(w: string): (r: Option<DiceMatch>)
    ensures r.Some? ==> r.value.index <= |w| && MatchAt(w, r.value.index) == r
    ensures r.Some? ==> WellFormed(r.value) && Greedy(w, r.value)
    ensures r.Some? ==> w[r.value.index..r.value.index + |r.value.text|] == r.value.text
    ensures r.Some? ==> forall j :: 0 <= j < r.value.index ==> MatchAt(w, j).None?
    ensures r.None? <==> forall j :: 0 <= j <= |w| ==> MatchAt(w, j).None?
  {
    SearchFrom(w, 0)
  }

  /** A digit run of length d that is not followed by a digit is what `\d+` takes. */
  lemma {:induction false} DigitRunExact(w: string, i: nat, d: nat)
    requires i + d <= |w|
    requires forall k :: i <= k < i + d ==> IsDigit(w[k])
    requires i + d == |w| || !IsDigit(w[i + d])
    ensures DigitRun(w, i) == d
    decreases d
  {
    if d > 0 {
      DigitRunExact(w, i + 1, d - 1);
    }
  }

  /** Where the pattern matches, and when the match carries the `N#` prefix: a match
      starts at i exactly when a dice count and a die letter stand there, or a digit run,
      a '#', a dice count and a die letter do; in the second case, and only then, the
      prefix is the whole digit run. */
  lemma MatchAtIff(w: string, i: nat)
    requires i <= |w|
    ensures MatchAt(w, i).Some? <==> BodyStartsAt(w, i) || exists d :: PrefixedBodyAt(w, i, d)
    ensures BodyStartsAt(w, i) ==> MatchAt(w, i).value.repeat.None?
    ensures forall d :: PrefixedBodyAt(w, i, d) ==> MatchAt(w, i).value.repeat == Some(w[i..i + d])
  {
    var n := DigitRun(w, i);
    if BodyStartsAt(w, i) {
      DigitRunExact(w, i, 1);
    }
    forall d | PrefixedBodyAt(w, i, d)
      ensures MatchAt(w, i).Some? && MatchAt(w, i).value.repeat == Some(w[i..i + d])
    {
      DigitRunExact(w, i, d);
    }
    if MatchAt(w, i).Some? && !BodyStartsAt(w, i) {
      assert PrefixedBodyAt(w, i, n);
    }
  }

  /** The dice count is a single digit, so "3#12f" is matched as "2f" at 3. */
  lemma ExecSingleDigitCount()
    ensures Exec("3#12f") == Some(DiceMatch(3, "2f", None, '2', 'f', None, None, None, None))
  {
    var w := "3#12f";
    assert DigitRun(w, 3) == 1;
    assert KeepAt(w, 5) == KeepPart(None, None, 5);
    assert ModifierAt(w, 5) == ModifierPart(None, None, 5);
    assert w[3..5] == "2f";
    assert BodyAt(w, 3, None, 3) == Some(DiceMatch(3, "2f", None, '2', 'f', None, None, None, None));
    assert MatchAt(w, 3) == Some(DiceMatch(3, "2f", None, '2', 'f', None, None, None, None));
    MatchAtIff(w, 0);
    MatchAtIff(w, 1);
    MatchAtIff(w, 2);
    assert forall d :: !PrefixedBodyAt(w, 0, d) by {
      assert !IsDigit(w[1]);
    }
    assert forall d :: !PrefixedBodyAt(w, 2, d) by {
      assert !IsDigit(w[4]);
    }
    assert SearchFrom(w, 3) == MatchAt(w, 3);
  }

  /** The sign of "3#1f+" has no digits after it and stays outside the match. */
  lemma ExecTrailingSign()
    ensures Exec("3#1f+") == Some(DiceMatch(0, "3#1f", Some("3"), '1', 'f', None, None, None, None))
  {
    var w := "3#1f+";
    var m := DiceMatch(0, "3#1f", Some("3"), '1', 'f', None, None, None, None);
    assert DigitRun(w, 0) == 1;
    assert KeepAt(w, 4) == KeepPart(None, None, 4);
    assert ModifierAt(w, 4) == ModifierPart(None, None, 4);
    assert w[0..4] == "3#1f" && w[0..1] == "3";
    assert BodyAt(w, 0, Some("3"), 2) == Some(m);
    assert MatchAt(w, 0) == Some(m);
  }

  /** The unsigned "5" of "3#1f5" is captured as an amount without a sign. */
  lemma ExecUnsignedAmount()
    ensures Exec("3#1f5") == Some(DiceMatch(0, "3#1f5", Some("3"), '1', 'f', None, None, None, Some("5")))
  {
    var w := "3#1f5";
    assert DigitRun(w, 0) == 1;
    assert KeepAt(w, 4) == KeepPart(None, None, 4);
    assert DigitRun(w, 4) == 1;
    assert w[4..5] == "5";
    assert ModifierAt(w, 4) == ModifierPart(None, Some("5"), 5);
    assert w[0..5] == "3#1f5" && w[0..1] == "3";
    var m := DiceMatch(0, "3#1f5", Some("3"), '1', 'f', None, None, None, Some("5"));
    assert BodyAt(w, 0, Some("3"), 2) == Some(m);
    assert MatchAt(w, 0) == Some(m);
  }

  /** The keep digits of "1fkh23" are greedy: `kh` takes "23" and no amount is left. */
  lemma ExecGreedyKeep()
    ensures Exec("1fkh23") == Some(DiceMatch(0, "1fkh23", None, '1', 'f', Some("23"), None, None, None))
  {
    var w := "1fkh23";
    var m := DiceMatch(0, "1fkh23", None, '1', 'f', Some("23"), None, None, None);
    assert DigitRun(w, 4) == 2;
    assert w[4..6] == "23";
    assert KeepAt(w, 2) == KeepPart(Some("23"), None, 6);
    assert ModifierAt(w, 6) == ModifierPart(None, None, 6);
    assert w[0..6] == "1fkh23";
    assert DigitRun(w, 0) == 1;
    assert BodyAt(w, 0, None, 0) == Some(m);
    assert MatchAt(w, 0) == Some(m);
  }

  /** A word that is just `<digits>#<digit><die letter>` is matched whole, with its digit
      run as the prefix and no keep clause or modifier. */
  lemma ExecPlainBatch(r: string, c: char, l: char)
    requires IsDigits(r) && IsDigit(c) && IsDieLetter(l)
    ensures var w := r + "#" + [c, l];
      Exec(w) == Some(DiceMatch(0, w, Some(r), c, l, None, None, None, None))
  {
    var w := r + "#" + [c, l];
    var d := |r|;
    assert w[..d] == r && w[d] == '#' && w[d + 1] == c && w[d + 2] == l;
    assert PrefixedBodyAt(w, 0, d);
    MatchAtIff(w, 0);
    var m := MatchAt(w, 0).value;
    assert m.repeat == Some(r);
    assert |m.text| <= |w|;
    assert m.text == w[0..|m.text|];
    assert m.text == r + "#" + [m.count, m.die] + KeepText(m.keepHigh, m.keepLow) + ModifierText(m.sign, m.amount);
    assert |KeepText(m.keepHigh, m.keepLow)| + |ModifierText(m.sign, m.amount)| == |m.text| - d - 3;
    assert m.keepHigh.None? && m.keepLow.None? && m.amount.None?;
    assert m.text == w;
  }
}
