/** The European single-zero wheel: the order of its 37 pockets, the colour of
    each number, and which pocket lies under the pointer once the wheel stops.

    Angles are measured in whole TURNS (one turn is 2π radians) so that they are
    exact Dafny reals; a slice of the wheel is 1/37 of a turn. The wheel is
    drawn rotated by `turns`, slice i starting i/37 of a turn after that
    rotation. The canvas draws no pointer: "pointer" here names screen
    direction 0, the canvas's positive x-axis, which is the direction the
    resolver reads. Where the page shows a pointer is decided by markup that
    this model does not cover. */
module Layout {

  /** Pocket numbers in wheel order, slice 0 first. */
  const Wheel: seq<int> :=
    [0, 32, 15, 19, 4, 21, 2, 25, 17, 34, 6, 27, 13, 36, 11, 30, 8, 23, 10,
     5, 24, 16, 33, 1, 20, 14, 31, 9, 22, 18, 29, 7, 28, 12, 35, 3, 26]

  const PocketCount: nat := 37

  /** The red numbers; every other non-zero number is black. */
  const Reds: set<int> :=
    {1, 3, 5, 7, 9, 12, 14, 16, 18, 19, 21, 23, 25, 27, 30, 32, 34, 36}

  datatype Colour = Green | Red | Black

  /** Zero is green, a member of Reds is red, anything else is black. */
  function ColourOf(n: int): Colour
  {
    if n == 0 then Green else if n in Reds then Red else Black
  }

  /** Wheel is a permutation of 0..36 with the zero on slice 0. */
  lemma WheelIsPermutation()
    ensures |Wheel| == PocketCount && Wheel[0] == 0
    ensures forall i :: 0 <= i < |Wheel| ==> 0 <= Wheel[i] <= 36
    ensures forall i, j :: 0 <= i < j < |Wheel| ==> Wheel[i] != Wheel[j]
    ensures forall n :: 0 <= n <= 36 <==> n in Wheel
  {
  }

  /** The numbers lo, lo + 1, ..., hi - 1. */
  function Range(lo: int, hi: int): set<int>
    decreases hi - lo
  {
    if lo >= hi then {} else Range(lo, hi - 1) + {hi - 1}
  }

  lemma {:induction false} RangeContents(lo: int, hi: int)
    ensures forall n :: n in Range(lo, hi) <==> lo <= n < hi
    ensures lo <= hi ==> |Range(lo, hi)| == hi - lo
    decreases hi - lo
  {
    if lo < hi {
      RangeContents(lo, hi - 1);
    }
  }

  /** The numbers 1..36 of the given colour. */
  function NumbersOfColour(c: Colour): set<int>
  {
    set n | n in Range(1, 37) && ColourOf(n) == c
  }

  /** Zero is the only green number; the other 36 split into 18 red and 18
      black, the reds being exactly Reds. */
  lemma ColourCounts()
    ensures ColourOf(0) == Green
    ensures forall n :: 1 <= n <= 36 ==> ColourOf(n) != Green
    ensures NumbersOfColour(Red) == Reds && |Reds| == 18
    ensures |NumbersOfColour(Black)| == 18
  {
    RangeContents(1, 37);
    RedsAreNumbers();
    RedsAreTheRedNumbers();
    BlacksAreTheRest();
    RemovedSize(Range(1, 37), Reds);
  }

  lemma RedsAreTheRedNumbers()
    ensures NumbersOfColour(Red) == Reds
  {
    RangeContents(1, 37);
    RedsAreNumbers();
  }

  lemma BlacksAreTheRest()
    ensures NumbersOfColour(Black) == Range(1, 37) - Reds
  {
    RangeContents(1, 37);
  }

  lemma RemovedSize(all: set<int>, part: set<int>)
    requires part <= all
    ensures |all - part| == |all| - |part|
  {
    assert all == (all - part) + part;
  }

  /** Reds holds 18 numbers, all between 1 and 36. */
  lemma RedsAreNumbers()
    ensures |Reds| == 18
    ensures forall n :: n in Reds ==> 1 <= n <= 36
  {
    var low := {1, 3, 5, 7, 9, 12, 14, 16, 18};
    var high := {19, 21, 23, 25, 27, 30, 32, 34, 36};
    assert |low| == 9 && |high| == 9;
    assert low * high == {};
    assert Reds == low + high;
  }

  /** x is a whole number of turns. */
  predicate IsWhole(x: real)
  {
    x.Floor as real == x
  }

  /** x truncated toward zero. */
  function Trunc(x: real): int
  {
    if x >= 0.0 then x.Floor else -((-x).Floor)
  }

  /** The remainder of x by one whole turn as JavaScript's `%` computes it:
      the remainder keeps the sign of the dividend. */
  function TurnRem(x: real): (r: real)
    ensures -1.0 < r < 1.0
    ensures x >= 0.0 ==> r >= 0.0
    ensures x <= 0.0 ==> r <= 0.0
    ensures IsWhole(x - r)
  {
    x - Trunc(x) as real
  }

  /** How far past the start of slice 0 the pointer lies, in turns, on a
      wheel rotated by `turns`: the remainder computation of the resolver
      before its division by the slice width. */
  function PointerTurn(turns: real): (r: real)
    ensures 0.0 <= r < 1.0
    ensures IsWhole(r + turns)
  {
    var a := TurnRem(turns);
    var r := TurnRem(1.0 - a);
    assert r + turns == (1 + Trunc(turns) - Trunc(1.0 - a)) as real;
    r
  }

  /** The slice under the pointer: its share of a turn contains PointerTurn. */
  function WinningIndex(turns: real): (i: nat)
    ensures i < PocketCount
    ensures i as real / 37.0 <= PointerTurn(turns) < (i + 1) as real / 37.0
  {
    (PointerTurn(turns) * 37.0).Floor
  }

  /** The number on the winning slice; always a number of the wheel. */
  function WinningNumber(turns: real): (n: int)
    ensures 0 <= n <= 36
    ensures n in Wheel
  {
    WheelIsPermutation();
    Wheel[WinningIndex(turns)]
  }

  /** PointerTurn is the one offset in [0, 1) that the rotation completes to
      a whole number of turns. */
  lemma PointerTurnIsUnique(turns: real, r: real)
    requires 0.0 <= r < 1.0 && IsWhole(r + turns)
    ensures r == PointerTurn(turns)
  {
    var p := PointerTurn(turns);
    var a, b := (r + turns).Floor, (p + turns).Floor;
    assert r - p == (a - b) as real;
  }

  /** Adding whole turns to the rotation does not change the outcome. */
  lemma WholeTurnsDoNotMatter(turns: real, k: int)
    ensures WinningIndex(turns + k as real) == WinningIndex(turns)
  {
    var p := PointerTurn(turns);
    var f := (p + turns).Floor;
    assert (p + (turns + k as real)) == (f + k) as real;
    PointerTurnIsUnique(turns + k as real, p);
  }

  /** Slice j, drawn on a wheel rotated by `turns`, covers screen direction 0
      (up to whole turns). */
  ghost predicate CoversPointer(turns: real, j: int)
  {
    exists x :: IsWhole(x) && turns + j as real / 37.0 <= x < turns + (j + 1) as real / 37.0
  }

  /** The resolver agrees with the drawing: the slice it picks is the one
      under the pointer, and no other slice is. */
  lemma ResolverAgreesWithDrawing(turns: real, j: int)
    requires 0 <= j < PocketCount
    ensures CoversPointer(turns, j) <==> j == WinningIndex(turns)
  {
    var p := PointerTurn(turns);
    if j == WinningIndex(turns) {
      assert IsWhole(p + turns);
    }
    if CoversPointer(turns, j) {
      var x :| IsWhole(x) && turns + j as real / 37.0 <= x < turns + (j + 1) as real / 37.0;
      assert x - turns + turns == x;
      PointerTurnIsUnique(turns, x - turns);
    }
  }

  /** An unrotated wheel stops on the green zero. */
  lemma UnrotatedWheelShowsZero()
    ensures WinningIndex(0.0) == 0
    ensures WinningNumber(0.0) == 0 && ColourOf(WinningNumber(0.0)) == Green
  {
  }
}
