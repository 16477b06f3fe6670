/**
 * The verdict shared by the Level-1 card click and the Level-2 hit in js/game.js:
 * the value expected next, a value of the sequence clicked too early or too late,
 * or a value that is not in the sequence at all.
 */
module Answers {

  datatype Verdict = CorrectNext | OutOfOrder | Wrong

  /**
   * `expectedSequence[expectedIndex] === value`, and otherwise `expectedSequence.includes(value)`.
   * Past the end of the sequence the expected value is `undefined`, which equals no number.
   */
  function Classify(sequence: seq<int>, index: int, value: int): (v: Verdict)
    ensures v == CorrectNext <==> 0 <= index < |sequence| && sequence[index] == value
    ensures v == OutOfOrder <==> !(0 <= index < |sequence| && sequence[index] == value) && value in sequence
    ensures v == Wrong <==> value !in sequence
  {
    if 0 <= index < |sequence| && sequence[index] == value then CorrectNext
    else if value in sequence then OutOfOrder
    else Wrong
  }

  /** A value that is right but out of order sits at another position of the sequence. */
  lemma OutOfOrderIsElsewhere(sequence: seq<int>, index: int, value: int)
    requires Classify(sequence, index, value) == OutOfOrder
    ensures exists k :: 0 <= k < |sequence| && k != index && sequence[k] == value
  {
    var k :| 0 <= k < |sequence| && sequence[k] == value;
    assert k != index;
  }

  /**
   * `includes` searches the whole sequence, so a value that was already taken earlier is
   * reported as out of order too, not only one that is still to come.
   */
  lemma EarlierValueIsOutOfOrder(sequence: seq<int>, index: int, k: int)
    requires forall i, j :: 0 <= i < j < |sequence| ==> sequence[i] != sequence[j]
    requires 0 <= k < index < |sequence|
    ensures Classify(sequence, index, sequence[k]) == OutOfOrder
  {
    assert sequence[k] != sequence[index];
  }
}
