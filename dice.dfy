/** `/roll`: parsing dice notation `NdX` and rolling `N` dice with `X` faces. */
module Dice {
  import opened Wrappers
  import opened Text
  import opened Random

  /** `N` dice with `X` faces each, as `parseInt` reads the two numbers. */
  datatype Notation = Notation(count: nat, sides: nat)

  /** The most dice one command may roll. */
  const MaxDice := 100

  /** `t` matches `^(\d+)d(\d+)$` with the 'd' at index `k`. */
  predicate SplitsAt(t: string, k: int) {
    0 < k < |t| - 1 && t[k] == 'd' && IsDigits(t[..k]) && IsDigits(t[k + 1..])
  }

  /** The length of the run of digits that starts `t`. */
  function DigitRun(t: string): (k: nat)
    ensures k <= |t| && AllDigits(t[..k])
    ensures k < |t| ==> !IsDigit(t[k])
    decreases |t|
  {
    if t == [] || !IsDigit(t[0]) then 0
    else
      var k := DigitRun(t[1..]);
      assert t[..k + 1] == [t[0]] + t[1..][..k];
      k + 1
  }

  /** The 'd' of a match can only sit where the leading digits end: digits
      never include a 'd'. */
  lemma SplitIsDigitRun(t: string, k: int)
    requires SplitsAt(t, k)
    ensures k == DigitRun(t)
  {
    var r := DigitRun(t);
  }

  /** `diceStr.toLowerCase().match(/^(\d+)d(\d+)$/)` and the two `parseInt`s:
      the notation is read exactly when the lower-cased text is digits, 'd',
      digits, and then the digits before and after the 'd' are the count and
      the number of faces. */
  function ParseDice(s: string): (r: Option<Notation>)
    ensures var t := Lower(s);
      && (r.Some? <==> exists k :: SplitsAt(t, k))
      && forall k :: SplitsAt(t, k) ==> r == Some(Notation(ParseNat(t[..k]), ParseNat(t[k + 1..])))
  {
    var t := Lower(s);
    var k := DigitRun(t);
    if 0 < k < |t| - 1 && t[k] == 'd' && AllDigits(t[k + 1..]) then
      assert SplitsAt(t, k);
      assert forall j :: SplitsAt(t, j) ==> j == k by {
        forall j | SplitsAt(t, j) ensures j == k { SplitIsDigitRun(t, j); }
      }
      Some(Notation(ParseNat(t[..k]), ParseNat(t[k + 1..])))
    else
      assert forall j :: !SplitsAt(t, j) by {
        forall j | SplitsAt(t, j) ensures false { SplitIsDigitRun(t, j); }
      }
      None
  }

  /** Writing `N`, a 'd' in either case and `X` in decimal reads back as `N`
      dice with `X` faces; in particular "0dX" is accepted with no dice. */
  lemma ParseDiceRoundTrip(n: nat, m: nat, d: char)
    requires d == 'd' || d == 'D'
    ensures ParseDice(NatToString(n) + [d] + NatToString(m)) == Some(Notation(n, m))
  {
    var a, b := NatToString(n), NatToString(m);
    var t := a + "d" + b;
    LowerNotation(a, d, b);
    assert t[..|a|] == a && t[|a| + 1..] == b;
    assert SplitsAt(t, |a|);
    ParseNatToString(n);
    ParseNatToString(m);
  }

  /** The upper-case 'D' is accepted: "2D20" is two twenty-sided dice. */
  lemma UpperCaseAccepted()
    ensures ParseDice("2D20") == Some(Notation(2, 20))
  {
    assert NatToString(2) + ['D'] + NatToString(20) == "2D20";
    ParseDiceRoundTrip(2, 20, 'D');
  }

  /** Lower-casing digits around a 'd' or 'D' gives the digits around 'd'. */
  lemma LowerNotation(a: string, d: char, b: string)
    requires AllDigits(a) && AllDigits(b) && (d == 'd' || d == 'D')
    ensures Lower(a + [d] + b) == a + "d" + b
  {
    var s, t := a + [d] + b, a + "d" + b;
    forall i | 0 <= i < |s| ensures LowerChar(s[i]) == t[i] {
      if i < |a| {
        assert s[i] == a[i] == t[i];
      } else if i > |a| {
        assert s[i] == b[i - |a| - 1] == t[i];
      }
    }
  }

  /** The count is mandatory: "dX" is not dice notation. */
  lemma MissingCountRejected(rest: string)
    ensures ParseDice("d" + rest).None?
  {
    var t := Lower("d" + rest);
    assert t[0] == 'd';
    forall k | SplitsAt(t, k) ensures false {
    }
  }

  /** One die: `Math.floor(Math.random() * sides) + 1`, a face from 1 to
      `sides`; a die with no faces always shows 1. */
  function Face(u: Draw, sides: nat): (r: int)
    ensures sides >= 1 ==> 1 <= r <= sides
    ensures sides == 0 ==> r == 1
  {
    Pick(u, sides) + 1
  }

  /** The total the roll loop accumulates with `total += roll`; rolls that
      are never negative never give a negative total. */
  function Sum(xs: seq<int>): (r: int)
    ensures (forall i :: 0 <= i < |xs| ==> xs[i] >= 0) ==> r >= 0
    decreases |xs|
  {
    if xs == [] then 0 else xs[0] + Sum(xs[1..])
  }

  /** Adding one more roll at the end adds it to the total. */
  lemma {:induction false} SumAppend(xs: seq<int>, x: int)
    ensures Sum(xs + [x]) == Sum(xs) + x
    decreases |xs|
  {
    if xs != [] {
      assert (xs + [x])[1..] == xs[1..] + [x];
      SumAppend(xs[1..], x);
    }
  }

  /** Rolls that each lie between `lo` and `hi` total between `n * lo` and
      `n * hi`: `N` dice with `X >= 1` faces total from `N` to `N * X`. */
  lemma {:induction false} SumBounds(xs: seq<int>, lo: int, hi: int)
    requires forall i :: 0 <= i < |xs| ==> lo <= xs[i] <= hi
    ensures |xs| * lo <= Sum(xs) <= |xs| * hi
    decreases |xs|
  {
    if xs != [] {
      SumBounds(xs[1..], lo, hi);
      assert |xs| * lo == (|xs| - 1) * lo + lo by { MulSucc(|xs| - 1, lo); }
      assert |xs| * hi == (|xs| - 1) * hi + hi by { MulSucc(|xs| - 1, hi); }
    }
  }

  lemma MulSucc(n: int, x: int)
    ensures (n + 1) * x == n * x + x
  {
  }

  /** The roll loop: die `i` uses the `i`-th draw; the results list every face
      in order and the total is their sum. */
  method Roll(n: nat, sides: nat, draws: seq<Draw>) returns (results: seq<int>, total: int)
    requires n <= |draws|
    ensures |results| == n
    ensures forall i :: 0 <= i < n ==> results[i] == Face(draws[i], sides)
    ensures total == Sum(results)
  {
    results := [];
    total := 0;
    var i := 0;
    while i < n
      invariant 0 <= i <= n
      invariant |results| == i
      invariant forall j :: 0 <= j < i ==> results[j] == Face(draws[j], sides)
      invariant total == Sum(results)
    {
      var roll := Face(draws[i], sides);
      SumAppend(results, roll);
      results := results + [roll];
      total := total + roll;
      i := i + 1;
    }
  }

  /** What `/roll` ends in. */
  datatype RollOutcome =
    | InvalidFormat
    | TooManyDice
    | Rolled(count: nat, sides: nat, results: seq<int>, total: int)

  /** `/roll`: an unreadable notation and more than 100 dice are refused
      (exactly 100 is allowed); otherwise the dice are rolled with the
      supplied draws, enough for the largest roll. */
  method RollCommand(diceStr: string, draws: seq<Draw>) returns (outcome: RollOutcome)
    requires |draws| >= MaxDice
    ensures outcome.InvalidFormat? <==> ParseDice(diceStr).None?
    ensures outcome.TooManyDice? <==> ParseDice(diceStr).Some? && ParseDice(diceStr).value.count > MaxDice
    ensures outcome.Rolled? ==>
      && ParseDice(diceStr) == Some(Notation(outcome.count, outcome.sides))
      && outcome.count <= MaxDice
      && |outcome.results| == outcome.count
      && (forall i :: 0 <= i < outcome.count ==> outcome.results[i] == Face(draws[i], outcome.sides))
      && (outcome.sides >= 1 ==> forall i :: 0 <= i < outcome.count ==> 1 <= outcome.results[i] <= outcome.sides)
      && outcome.total == Sum(outcome.results)
  {
    var notation := ParseDice(diceStr);
    if notation.None? {
      return InvalidFormat;
    }
    var numDice, numSides := notation.value.count, notation.value.sides;
    if numDice > MaxDice {
      return TooManyDice;
    }
    var results, total := Roll(numDice, numSides, draws);
    outcome := Rolled(numDice, numSides, results, total);
  }

  /** The reply shows the notation rolled and the total. */
  function RollText(o: RollOutcome): (r: string)
    ensures o.Rolled? ==> Contains(r, NatToString(o.count) + "d" + NatToString(o.sides))
    ensures o.Rolled? ==> Contains(r, "Total: **" + IntToString(o.total) + "**")
  {
    match o
    case InvalidFormat => "Formato inválido. Usa el formato NdX (ejemplo: 2d20, 3d6)"
    case TooManyDice => "No puedes tirar más de 100 dados a la vez"
    case Rolled(n, x, results, total) =>
      var notation := NatToString(n) + "d" + NatToString(x);
      var listed := ":\nResultados: " + Join(RollTexts(results), ", ") + "\n";
      Splice("\U{1F3B2} Tirando ", notation, listed, "Total: **" + IntToString(total) + "**", "")
  }

  /** Each roll in decimal, in the order rolled. */
  function RollTexts(results: seq<int>): (r: seq<string>)
    ensures |r| == |results|
    ensures forall i :: 0 <= i < |r| ==> r[i] == IntToString(results[i])
  {
    seq(|results|, i requires 0 <= i < |results| => IntToString(results[i]))
  }

  /** The reply lists every roll. */
  lemma RollTextListsEvery(n: nat, x: nat, results: seq<int>, total: int, i: nat)
    requires i < |results|
    ensures Contains(RollText(Rolled(n, x, results, total)), IntToString(results[i]))
  {
    var notation := NatToString(n) + "d" + NatToString(x);
    var joined := Join(RollTexts(results), ", ");
    JoinContains(RollTexts(results), ", ", i);
    ContainsWithin(":\nResultados: ", joined, "\n", IntToString(results[i]));
    SpliceWithin("\U{1F3B2} Tirando ", notation, ":\nResultados: " + joined + "\n",
                 "Total: **" + IntToString(total) + "**", "", IntToString(results[i]));
  }
}
