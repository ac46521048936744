/** Rolling dice: `getRandomInt`, `rollDiceByType`, `calculateDiceRoll` and the `sum`
    helper of `parseDiceRoll`. The random source is an oracle that may return any integer
    in the requested range; the methods hand back, as ghost results, the faces it gave,
    and what they compute is stated as a function of those faces. */
module Rolling {
  import opened Common
  import opened JsSort

  /** The two exceptions the code can raise: the string thrown for an unknown die type,
      and the TypeError of `reduce` on an empty array with no initial value. */
  datatype JsError = UnknownDiceType(diceType: char) | ReduceOfEmptyArray

  /** `getRandomInt(min, max)`: some integer between min and max, both inclusive. */
  method GetRandomInt(min: int, max: int) returns (r: int)
    requires min <= max
    ensures min <= r <= max
  {
    r :| min <= r <= max;
  }

  /** A die family: a face is drawn from [1, sides] and `offset` is subtracted. */
  datatype DieKind = DieKind(sides: nat, offset: nat)

  /** The cases of the switch in `rollDiceByType`; None is its default branch. */
  function DieKindOf(diceType: char): (r: Option<DieKind>) {
    match diceType
    case 'f' => Some(DieKind(12, 6))
    case 'r' => Some(DieKind(18, 9))
    case 't' => Some(DieKind(24, 12))
    case _ => None
  }

  /** The value one roll contributes: the face minus the offset, times the dice count. */
  function DieValue(kind: DieKind, diceCount: nat, face: int): (r: int) {
    diceCount * (face - kind.offset)
  }

  /** v is a value some face of the die gives for `diceCount` dice. */
  predicate IsRollOf(kind: DieKind, diceCount: nat, v: int) {
    exists face :: 1 <= face <= kind.sides && v == DieValue(kind, diceCount, face)
  }

  /** Every value a roll can take is a multiple of the dice count within
      diceCount × (1 − offset) and diceCount × (sides − offset). */
  lemma RollValueBounds(kind: DieKind, diceCount: nat, v: int)
    requires IsRollOf(kind, diceCount, v)
    ensures diceCount * (1 - kind.offset) <= v <= diceCount * (kind.sides - kind.offset)
    ensures diceCount > 0 ==> v % diceCount == 0
  {
    var face :| 1 <= face <= kind.sides && v == DieValue(kind, diceCount, face);
    var k := face - kind.offset;
    assert v == diceCount * k;
    MultiplyMonotone(diceCount, 1 - kind.offset, k);
    MultiplyMonotone(diceCount, k, kind.sides - kind.offset);
    if diceCount > 0 {
      MultipleMod(diceCount, k);
    }
  }

  lemma MultiplyMonotone(n: nat, a: int, b: int)
    requires a <= b
    ensures n * a <= n * b
  {
    assert n * b - n * a == n * (b - a);
  }

  lemma MultipleMod(n: nat, k: int)
    requires n > 0
    ensures (n * k) % n == 0
  {
    var q := (n * k) / n;
    var r := (n * k) % n;
    assert n * k == n * q + r && 0 <= r < n;
    assert n * (k - q) == r;
    if k - q > 0 {
      MultiplyMonotone(n, 1, k - q);
    } else if k - q < 0 {
      MultiplyMonotone(n, k - q, -1);
    }
  }

  /** `rollDiceByType(diceType, diceCount)`: the default branch throws; otherwise one face
      is drawn from the die's range and its value returned. */
  method RollDiceByType(diceType: char, diceCount: nat) returns (r: Result<int, JsError>, ghost face: int)
    ensures DieKindOf(diceType).None? ==> r == Failure(UnknownDiceType(diceType))
    ensures DieKindOf(diceType).Some? ==>
      1 <= face <= DieKindOf(diceType).value.sides && r == Success(DieValue(DieKindOf(diceType).value, diceCount, face))
  {
    match diceType {
      case 'f' =>
        var f := GetRandomInt(1, 12);
        face := f;
        r := Success(diceCount * (f - 6));
      case 'r' =>
        var f := GetRandomInt(1, 18);
        face := f;
        r := Success(diceCount * (f - 9));
      case 't' =>
        var f := GetRandomInt(1, 24);
        face := f;
        r := Success(diceCount * (f - 12));
      case _ =>
        face := 0;
        r := Failure(UnknownDiceType(diceType));
    }
  }

  /** The faces `calculateDiceRoll` draws: none for an unknown die type (it throws before
      drawing), otherwise one face in range per die. */
  predicate FacesFor(diceType: char, diceCount: nat, faces: seq<int>) {
    match DieKindOf(diceType)
    case None => faces == []
    case Some(kind) => |faces| == diceCount && InRange(kind, faces)
  }

  predicate InRange(kind: DieKind, faces: seq<int>) {
    forall k :: 0 <= k < |faces| ==> 1 <= faces[k] <= kind.sides
  }

  /** The values of the drawn faces, in draw order. */
  function Scaled(kind: DieKind, diceCount: nat, faces: seq<int>): (r: seq<int>) {
    seq(|faces|, k requires 0 <= k < |faces| => DieValue(kind, diceCount, faces[k]))
  }

  /** What `calculateDiceRoll(diceType, diceCount)` returns or throws, given the faces drawn. */
  function RollOutcome(diceType: char, diceCount: nat, faces: seq<int>): (r: Result<seq<int>, JsError>)
    requires FacesFor(diceType, diceCount, faces)
  {
    match DieKindOf(diceType)
    case None => if diceCount == 0 then Success([]) else Failure(UnknownDiceType(diceType))
    case Some(kind) => Success(Sort(Scaled(kind, diceCount, faces)))
  }

  /** `calculateDiceRoll(diceType, diceCount)`: draws `diceCount` rolls in a loop, pushing
      each onto an array, and sorts the array. */
  method CalculateDiceRoll(diceType: char, diceCount: nat) returns (r: Result<seq<int>, JsError>, ghost faces: seq<int>)
    ensures r.Failure? <==> DieKindOf(diceType).None? && diceCount > 0
    ensures r.Success? ==> |r.value| == diceCount && Sorted(r.value)
    ensures r.Success? && DieKindOf(diceType).Some? ==>
      forall k :: 0 <= k < |r.value| ==> IsRollOf(DieKindOf(diceType).value, diceCount, r.value[k])
    ensures FacesFor(diceType, diceCount, faces)
    ensures r == RollOutcome(diceType, diceCount, faces)
  {
    var diceRolls: seq<int> := [];
    faces := [];
    for i := 0 to diceCount
      invariant i > 0 ==> DieKindOf(diceType).Some?
      invariant DieKindOf(diceType).None? ==> faces == [] && diceRolls == []
      invariant DieKindOf(diceType).Some? ==>
        |faces| == i && InRange(DieKindOf(diceType).value, faces) &&
        diceRolls == Scaled(DieKindOf(diceType).value, diceCount, faces)
    {
      var roll;
      ghost var face;
      roll, face := RollDiceByType(diceType, diceCount);
      if roll.Failure? {
        r := Failure(roll.error);
        return;
      }
      diceRolls := diceRolls + [roll.value];
      faces := faces + [face];
    }
    RollOutcomeSpec(diceType, diceCount, faces);
    r := Success(Sort(diceRolls));
  }

  /** What `calculateDiceRoll` promises: it throws exactly for an unknown die type and a
      positive count; otherwise it returns `diceCount` rolls, each a value a face of the die
      gives for that many dice, that are the drawn values reordered into the default
      `sort()` order. */
  lemma RollOutcomeSpec(diceType: char, diceCount: nat, faces: seq<int>)
    requires FacesFor(diceType, diceCount, faces)
    ensures RollOutcome(diceType, diceCount, faces).Failure? <==> DieKindOf(diceType).None? && diceCount > 0
    ensures RollOutcome(diceType, diceCount, faces).Success? ==>
      var rolls := RollOutcome(diceType, diceCount, faces).value;
      && |rolls| == diceCount
      && Sorted(rolls)
      && (DieKindOf(diceType).Some? ==>
            && multiset(rolls) == multiset(Scaled(DieKindOf(diceType).value, diceCount, faces))
            && forall k :: 0 <= k < |rolls| ==> IsRollOf(DieKindOf(diceType).value, diceCount, rolls[k]))
  {
    match DieKindOf(diceType)
    case None =>
    case Some(kind) =>
      var values := Scaled(kind, diceCount, faces);
      SortSpec(values);
      var rolls := Sort(values);
      forall k | 0 <= k < |rolls| ensures IsRollOf(kind, diceCount, rolls[k]) {
        assert rolls[k] in multiset(values);
        var j :| 0 <= j < |values| && values[j] == rolls[k];
        assert 1 <= faces[j] <= kind.sides && rolls[k] == DieValue(kind, diceCount, faces[j]);
      }
  }

  /** The plain mathematical sum. */
  function Total(s: seq<int>): (r: int) {
    if s == [] then 0 else s[0] + Total(s[1..])
  }

  /** The left fold `reduce((a, b) => a + b)` performs after taking the first element. */
  function FoldSum(acc: int, s: seq<int>): (r: int)
    ensures r == acc + Total(s)
    decreases |s|
  {
    if s == [] then acc else FoldSum(acc + s[0], s[1..])
  }

  /** `sum(arr)`, that is `arr.reduce((a, b) => a + b)`: throws on an empty array,
      otherwise the total of the elements. */
  function Sum(arr: seq<int>): (r: Result<int, JsError>)
    ensures r.Failure? <==> arr == []
    ensures r.Failure? ==> r.error == ReduceOfEmptyArray
    ensures r.Success? ==> r.value == Total(arr)
  {
    if arr == [] then Failure(ReduceOfEmptyArray) else Success(FoldSum(arr[0], arr[1..]))
  }

  lemma {:induction false} TotalRemove(s: seq<int>, j: nat)
    requires j < |s|
    ensures Total(s) == s[j] + Total(s[..j] + s[j + 1..])
  {
    if j == 0 {
      assert s[..0] + s[1..] == s[1..];
    } else {
      TotalRemove(s[1..], j - 1);
      assert s[1..][..j - 1] + s[1..][j..] == (s[..j] + s[j + 1..])[1..];
    }
  }

  /** The total does not depend on the order of the elements, so sorting the rolls does
      not change their sum. */
  lemma {:induction false} TotalPermutation(a: seq<int>, b: seq<int>)
    requires multiset(a) == multiset(b)
    ensures Total(a) == Total(b)
    decreases |a|
  {
    if a == [] {
      assert |b| == |multiset(b)| == 0;
    } else {
      assert a[0] in multiset(b) by {
        assert a[0] in multiset(a);
      }
      var j :| 0 <= j < |b| && b[j] == a[0];
      var rest := b[..j] + b[j + 1..];
      assert b == b[..j] + [b[j]] + b[j + 1..];
      assert a == [a[0]] + a[1..];
      assert multiset(b) == multiset(b[..j]) + multiset{b[j]} + multiset(b[j + 1..]);
      assert multiset(a) == multiset{a[0]} + multiset(a[1..]);
      assert multiset(rest) == multiset(b[..j]) + multiset(b[j + 1..]);
      calc {
        multiset(a[1..]);
        multiset(a) - multiset{a[0]};
        multiset(b) - multiset{b[j]};
        multiset(rest);
      }
      TotalRemove(b, j);
      TotalPermutation(a[1..], rest);
    }
  }
}
