/** The dice of the browser version (Dice in assignment1): a face array and a
    parallel hold mask. The random face a roll gives an un-held die is
    supplied by the caller, one draw per die position, each a face 1..6. */
module DiceSet {
  import opened Vocabulary

  /** The faces after a roll: a held die keeps its face, an un-held die `i`
      shows `draws[i]`. */
  function Rolled(values: seq<int>, held: seq<bool>, draws: seq<int>): (r: seq<int>)
    requires |held| == |values| && |draws| == |values|
    ensures |r| == |values|
    ensures forall i :: 0 <= i < |r| ==> r[i] == values[i] || r[i] == draws[i]
    ensures AllFaces(values) && AllFaces(draws) ==> AllFaces(r)
  {
    seq(|values|, i requires 0 <= i < |values| => if held[i] then values[i] else draws[i])
  }

  /** A roll never moves a held die, and puts every other die on its draw. */
  lemma RolledKeepsHeld(values: seq<int>, held: seq<bool>, draws: seq<int>, i: int)
    requires |held| == |values| && |draws| == |values| && 0 <= i < |values|
    ensures held[i] ==> Rolled(values, held, draws)[i] == values[i]
    ensures !held[i] ==> Rolled(values, held, draws)[i] == draws[i]
  {
  }

  /** The hold mask after toggling `index`: that flag flipped, every other
      flag kept; an index outside the mask leaves it as it was. */
  function Toggled(mask: seq<bool>, index: int): (m: seq<bool>)
    ensures |m| == |mask|
    ensures forall i :: 0 <= i < |mask| && i != index ==> m[i] == mask[i]
    ensures 0 <= index < |mask| ==> m[index] == !mask[index]
    ensures !(0 <= index < |mask|) ==> m == mask
  {
    if 0 <= index < |mask| then mask[index := !mask[index]] else mask
  }

  /** Toggling the same die twice restores the mask. */
  lemma ToggleTwice(mask: seq<bool>, index: int)
    ensures Toggled(Toggled(mask, index), index) == mask
  {
  }

  /** A mask of `n` released dice. */
  function Released(n: nat): (m: seq<bool>)
    ensures |m| == n && forall i :: 0 <= i < n ==> !m[i]
  {
    seq(n, _ => false)
  }

  class Dice {
    const numDice: nat
    const values: array<int>
    var held: array<bool>

    ghost predicate Valid()
      reads this
    {
      values.Length == numDice && held.Length == numDice
    }

    /** `new Dice(numDice)`: every die shows 1 and none is held. (The source
        defaults `numDice` to 6; the game always asks for 5.) */
    constructor (numDice: nat)
      ensures Valid() && this.numDice == numDice
      ensures fresh(values) && fresh(held)
      ensures forall i :: 0 <= i < numDice ==> values[i] == 1 && !held[i]
    {
      this.numDice := numDice;
      values := new int[numDice](_ => 1);
      held := new bool[numDice](_ => false);
    }

    /** `roll()`: re-rolls every un-held die in place and returns the faces. */
    method Roll(draws: seq<int>) returns (r: array<int>)
      requires Valid() && |draws| == numDice && AllFaces(draws)
      modifies values
      ensures r == values && held == old(held) && held[..] == old(held[..])
      ensures values[..] == Rolled(old(values[..]), held[..], draws)
      ensures forall i :: 0 <= i < numDice && held[i] ==> values[i] == old(values[i])
      ensures forall i :: 0 <= i < numDice && !held[i] ==> IsFace(values[i])
    {
      var i := 0;
      while i < numDice
        invariant 0 <= i <= numDice
        invariant values[..i] == Rolled(old(values[..]), held[..], draws)[..i]
        invariant values[i..] == old(values[..])[i..]
      {
        if !held[i] {
          values[i] := draws[i];
        }
        i := i + 1;
      }
      r := values;
      forall k | 0 <= k < numDice
        ensures values[k] == Rolled(old(values[..]), held[..], draws)[k]
      {
        assert values[..][k] == values[..i][k];
      }
      forall k | 0 <= k < numDice
        ensures held[k] ==> values[k] == old(values[k])
        ensures !held[k] ==> IsFace(values[k])
      {
        RolledKeepsHeld(old(values[..]), held[..], draws, k);
      }
    }

    /** `toggleHold(index)`: flips one hold flag; an index outside the dice is
        ignored. */
    method ToggleHold(index: int)
      requires Valid()
      modifies held
      ensures held[..] == Toggled(old(held[..]), index)
      ensures 0 <= index < numDice ==> held[index] == !old(held[index])
    {
      if index < 0 || index >= numDice {
        return;
      }
      held[index] := !held[index];
    }

    /** `releaseAll()`: replaces the mask by one of the same length with every
        die released; the faces stay. */
    method ReleaseAll()
      requires Valid()
      modifies this
      ensures Valid() && fresh(held)
      ensures held[..] == Released(old(held.Length))
      ensures values[..] == old(values[..])
    {
      held := new bool[held.Length](_ => false);
    }
  }
}
