/**
 The five-stage colour ramp of a calendar cell and the click rule that moves a
 cell one stage darker (milestone.py:27, 54-63).
 */
module Stages {

  /** The progress ramp, lightest first. */
  const Ramp: seq<string> := ["#b7efc5", "#6ede8a", "#25a244", "#1a7431", "#04471c"]

  /** The last, darkest stage: a cell in this colour counts as done. */
  const Final: string := Ramp[|Ramp| - 1]

  /** Colour every cell is created with; it is not a ramp entry. */
  const White: string := "#ffffff"

  /** Position of a colour on the ramp, or -1 for a colour the ramp does not hold. */
  function Stage(c: string): (k: int)
    ensures -1 <= k < |Ramp|
    ensures k == -1 <==> c !in Ramp
    ensures k >= 0 ==> Ramp[k] == c
  {
    if c == Ramp[0] then 0
    else if c == Ramp[1] then 1
    else if c == Ramp[2] then 2
    else if c == Ramp[3] then 3
    else if c == Ramp[4] then 4
    else -1
  }

  /**
   One pass of the handler's loop over `enumerate(progress_stages)` from
   position `index` on, with `shown` the colour the cell currently carries and
   `bg` the colour read before the loop. A match below the last position sets
   the next colour and breaks; every position where `bg` is not on the ramp
   at all sets the first colour again.
   */
  function AdvanceFrom(bg: string, index: nat, shown: string): (r: string)
    requires index <= |Ramp|
    ensures forall i :: index <= i < |Ramp| - 1 && bg == Ramp[i] ==> r == Ramp[i + 1]
    ensures bg !in Ramp ==> r == (if index < |Ramp| then Ramp[0] else shown)
    ensures bg in Ramp[..index] || bg == Final ==> r == shown
    decreases |Ramp| - index
  {
    if index == |Ramp| then shown
    else if bg == Ramp[index] && index < |Ramp| - 1 then Ramp[index + 1]
    else if bg !in Ramp then AdvanceFrom(bg, index + 1, Ramp[0])
    else
      assert bg in Ramp[..index] ==> bg in Ramp[..index + 1] by {
        assert Ramp[..index] <= Ramp[..index + 1];
      }
      AdvanceFrom(bg, index + 1, shown)
  }

  /**
   `change_button_color`: an unrecognised colour becomes the first stage, a
   ramp colour below the last becomes the next one, and the last stays put.
   The result is always a ramp colour.
   */
  function Advance(c: string): (r: string)
    ensures c !in Ramp ==> r == Ramp[0]
    ensures forall i :: 0 <= i < |Ramp| - 1 && c == Ramp[i] ==> r == Ramp[i + 1]
    ensures c == Final ==> r == c
    ensures r in Ramp
  {
    AdvanceFrom(c, 0, c)
  }

  /** `n` clicks in a row on a cell showing `c`. */
  function AdvanceN(c: string, n: nat): string
    decreases n
  {
    if n == 0 then c else AdvanceN(Advance(c), n - 1)
  }

  /** A click moves the stage up by one, capped at the last stage. */
  lemma AdvanceStage(c: string)
    ensures Stage(Advance(c)) == if Stage(c) + 1 < |Ramp| then Stage(c) + 1 else |Ramp| - 1
  {
  }

  /** A click on ramp entry `k` shows entry `k + 1`, or the last entry again. */
  lemma AdvanceOnRamp(k: nat)
    requires k < |Ramp|
    ensures Advance(Ramp[k]) == Ramp[if k + 1 < |Ramp| then k + 1 else |Ramp| - 1]
  {
  }

  /** `n` clicks on ramp entry `k` move it `n` entries on, capped at the last one. */
  lemma {:induction false} AdvanceNOnRamp(k: nat, n: nat)
    requires k < |Ramp|
    ensures AdvanceN(Ramp[k], n) == Ramp[if k + n < |Ramp| then k + n else |Ramp| - 1]
    decreases n
  {
    if n > 0 {
      var next := if k + 1 < |Ramp| then k + 1 else |Ramp| - 1;
      AdvanceOnRamp(k);
      assert AdvanceN(Ramp[k], n) == AdvanceN(Ramp[next], n - 1);
      AdvanceNOnRamp(next, n - 1);
    }
  }

  /** On a colour off the ramp, the first click gives the first entry and the rest climb from there. */
  lemma AdvanceNOffRamp(c: string, n: nat)
    requires c !in Ramp && n > 0
    ensures AdvanceN(c, n) == Ramp[if n - 1 < |Ramp| then n - 1 else |Ramp| - 1]
  {
    AdvanceNOnRamp(0, n - 1);
  }

  /**
   A fresh white cell needs exactly five clicks to reach the last stage: the
   n-th click (n <= 5) shows ramp entry n-1, fewer than five never show the
   last colour, and from the fifth on it stays there.
   */
  lemma FiveClicksFromWhite(n: nat)
    ensures 1 <= n <= |Ramp| ==> AdvanceN(White, n) == Ramp[n - 1]
    ensures n < |Ramp| ==> AdvanceN(White, n) != Final
    ensures n >= |Ramp| ==> AdvanceN(White, n) == Final
  {
    if n > 0 {
      AdvanceNOffRamp(White, n);
    }
  }

  /** Once at the last stage, any number of further clicks change nothing. */
  lemma {:induction false} FinalIsCeiling(n: nat)
    ensures AdvanceN(Final, n) == Final
    decreases n
  {
    if n > 0 {
      FinalIsCeiling(n - 1);
    }
  }
}
