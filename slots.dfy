/**
 * The Level-3 board of `renderLevel3` in js/game.js: five typed slots (number, operator,
 * number, operator, number) and the registry of cards, one per task number and operator,
 * each disabled while it sits in a slot. A card's id is its position in the registry; a drop
 * names the card and the slot it lands on.
 */
module SlotBoard {
  import opened Wrappers
  import opened Expression
  import Tuning
  import Session

  datatype Kind = NumberKind | OpKind

  /** What a card shows and a slot's `dataset.value` holds. */
  datatype Token = Number(n: int) | Operator(op: char)

  datatype CardEntry = CardEntry(kind: Kind, token: Token, disabled: bool)

  /** `slotItems`: the type of each of the five slots. */
  const SlotKinds: seq<Kind> := [NumberKind, OpKind, NumberKind, OpKind, NumberKind]

  /** A token of the right shape for its kind. */
  predicate Fits(k: Kind, t: Token)
  {
    if k == NumberKind then t.Number? else t.Operator?
  }

  /** Five slot values, each empty or of the slot's kind. */
  predicate WellKinded(values: seq<Option<Token>>)
  {
    |values| == 5 && forall i :: 0 <= i < 5 ==> values[i].Some? ==> Fits(SlotKinds[i], values[i].value)
  }

  datatype Outcome = Incomplete | DivisionByZero | Solved | WrongResult(result: real)

  /**
   * The check button: nothing unless all five slots hold a value; then the expression is
   * evaluated with the game's precedence, and it is solved when within 0.01 of the target.
   */
  function OutcomeOf(values: seq<Option<Token>>, target: real): (o: Outcome)
    requires WellKinded(values)
    ensures o == Incomplete <==> exists i :: 0 <= i < 5 && values[i].None?
    ensures o == Solved <==>
              && (forall i :: 0 <= i < 5 ==> values[i].Some?)
              && var r := Evaluate(values[0].value.n as real, values[1].value.op, values[2].value.n as real,
                                   values[3].value.op, values[4].value.n as real);
                 r.Some? && -0.01 < r.value - target < 0.01
    ensures o == DivisionByZero ==> (forall i :: 0 <= i < 5 ==> values[i].Some?)
  {
    if exists i :: 0 <= i < 5 && values[i].None? then Incomplete
    else
      var r := Evaluate(values[0].value.n as real, values[1].value.op, values[2].value.n as real,
                        values[3].value.op, values[4].value.n as real);
      if r.None? then DivisionByZero
      else if -0.01 < r.value - target < 0.01 then Solved
      else WrongResult(r.value)
  }

  /** Laying out the hidden expression of the task solves it. */
  lemma SolutionSolves(a: int, op1: char, b: int, op2: char, c: int, target: real)
    requires Evaluate(a as real, op1, b as real, op2, c as real) == Some(target)
    ensures OutcomeOf([Some(Number(a)), Some(Operator(op1)), Some(Number(b)), Some(Operator(op2)), Some(Number(c))], target) == Solved
  {
  }

  /** A value off by at least 0.01 is wrong, however close. */
  lemma FarResultIsWrong(values: seq<Option<Token>>, target: real)
    requires WellKinded(values) && forall i :: 0 <= i < 5 ==> values[i].Some?
    requires var r := Evaluate(values[0].value.n as real, values[1].value.op, values[2].value.n as real,
                               values[3].value.op, values[4].value.n as real);
             r.Some? && (r.value >= target + 0.01 || r.value <= target - 0.01)
    ensures OutcomeOf(values, target).WrongResult?
  {
  }

  class Board {
    /** `cardRegistry`, indexed by card id. */
    var cards: seq<CardEntry>
    /** `slot.dataset.cardId` of each slot. */
    var slots: seq<Option<int>>

    /**
     * Every slot holds a registered card of its own type, no card sits in two slots, and a card
     * is disabled exactly when a slot holds it.
     */
    predicate Valid()
      reads this
    {
      && |slots| == 5
      && (forall i :: 0 <= i < 5 && slots[i].Some? ==>
            0 <= slots[i].value < |cards| && cards[slots[i].value].kind == SlotKinds[i])
      && (forall i, j :: 0 <= i < j < 5 && slots[i].Some? && slots[j].Some? ==> slots[i].value != slots[j].value)
      && (forall k :: 0 <= k < |cards| ==> (cards[k].disabled <==> Some(k) in slots))
      && (forall k :: 0 <= k < |cards| ==> Fits(cards[k].kind, cards[k].token))
    }

    /** The five `slot.dataset.value`s. */
    function Values(): (values: seq<Option<Token>>)
      reads this
      requires Valid()
      ensures WellKinded(values)
    {
      [ValueAt(0), ValueAt(1), ValueAt(2), ValueAt(3), ValueAt(4)]
    }

    function ValueAt(i: int): (v: Option<Token>)
      reads this
      requires Valid() && 0 <= i < 5
      ensures v.Some? ==> Fits(SlotKinds[i], v.value)
    {
      if slots[i].Some? then Some(cards[slots[i].value].token) else None
    }

    /** A card for every task number, then one for every operator; all slots empty. */
    constructor(numbers: seq<int>, ops: seq<char>)
      ensures Valid()
      ensures |cards| == |numbers| + |ops|
      ensures forall k :: 0 <= k < |numbers| ==> cards[k] == CardEntry(NumberKind, Number(numbers[k]), false)
      ensures forall k :: 0 <= k < |ops| ==> cards[|numbers| + k] == CardEntry(OpKind, Operator(ops[k]), false)
      ensures slots == [None, None, None, None, None]
    {
      cards := seq(|numbers|, k requires 0 <= k < |numbers| => CardEntry(NumberKind, Number(numbers[k]), false))
             + seq(|ops|, k requires 0 <= k < |ops| => CardEntry(OpKind, Operator(ops[k]), false));
      slots := [None, None, None, None, None];
    }

    /** `returnCardToSource`: the card is enabled again (its place in the row is not modelled). */
    method ReturnCard(id: int)
      modifies this
      ensures slots == old(slots) && |cards| == |old(cards)|
      ensures 0 <= id < |cards| ==> cards == old(cards)[id := old(cards)[id].(disabled := false)]
      ensures !(0 <= id < |cards|) ==> cards == old(cards)
    {
      if 0 <= id < |cards| {
        cards := cards[id := cards[id].(disabled := false)];
      }
    }

    /**
     * A card dropped on a slot. A card of the other type changes nothing; otherwise the card
     * that was there goes back to its row, and the dropped card takes the slot and is disabled.
     * Only an enabled card can be dragged.
     */
    method Drop(slot: int, id: int)
      requires Valid() && 0 <= slot < 5 && 0 <= id < |cards| && !cards[id].disabled
      modifies this
      ensures Valid() && |cards| == |old(cards)|
      ensures old(cards)[id].kind != SlotKinds[slot] ==> cards == old(cards) && slots == old(slots)
      ensures old(cards)[id].kind == SlotKinds[slot] ==>
                && slots == old(slots)[slot := Some(id)]
                && forall k :: 0 <= k < |cards| ==>
                     cards[k] == old(cards)[k].(disabled := if k == id then true
                                                          else if old(slots)[slot] == Some(k) then false
                                                          else old(cards)[k].disabled)
    {
      if cards[id].kind != SlotKinds[slot] {
        return;
      }
      if slots[slot].Some? {
        ReturnCard(slots[slot].value);
      }
      slots := slots[slot := Some(id)];
      cards := cards[id := cards[id].(disabled := true)];
    }

    /** A click on a filled slot, or "clear" in its context menu: the card goes back and the slot empties. */
    method ClearSlot(slot: int)
      requires Valid() && 0 <= slot < 5
      modifies this
      ensures Valid()
      ensures slots == old(slots)[slot := None]
      ensures old(slots)[slot].None? ==> cards == old(cards)
      ensures old(slots)[slot].Some? ==>
                var id := old(slots)[slot].value;
                cards == old(cards)[id := old(cards)[id].(disabled := false)]
    {
      if slots[slot].Some? {
        ReturnCard(slots[slot].value);
      }
      slots := slots[slot := None];
    }

    /**
     * A card dropped back on a row: when the card sits in a slot, that slot empties and the card
     * is enabled; any other drop changes nothing.
     */
    method DropOnRow(id: int)
      requires Valid()
      modifies this
      ensures Valid()
      ensures !(0 <= id < |old(cards)| && old(cards)[id].disabled) ==> cards == old(cards) && slots == old(slots)
      ensures 0 <= id < |old(cards)| && old(cards)[id].disabled ==>
                && cards == old(cards)[id := old(cards)[id].(disabled := false)]
                && |slots| == 5
                && (forall i :: 0 <= i < 5 ==> slots[i] == if old(slots)[i] == Some(id) then None else old(slots)[i])
                && Some(id) !in slots
    {
      if 0 <= id < |cards| && cards[id].disabled {
        ghost var before := slots;
        for i := 0 to 5
          invariant cards == old(cards) && |slots| == 5
          invariant forall j :: 0 <= j < 5 ==> slots[j] == if j < i && before[j] == Some(id) then None else before[j]
        {
          if slots[i] == Some(id) {
            slots := slots[i := None];
          }
        }
        forall k | 0 <= k < |cards| && k != id
          ensures Some(k) in slots <==> Some(k) in before
        {
          if Some(k) in before {
            var i :| 0 <= i < 5 && before[i] == Some(k);
            assert slots[i] == Some(k);
          }
          if Some(k) in slots {
            var i :| 0 <= i < 5 && slots[i] == Some(k);
            assert before[i] == Some(k);
          }
        }
        ReturnCard(id);
      }
    }

    /**
     * The check button. An incomplete board or a division by zero only shows a message; a
     * solution earns the full base points and completes the sub-level; a wrong result costs one
     * penalty. The board itself never changes.
     */
    method Check(session: Session.GameSession, target: real) returns (outcome: Outcome, completed: bool)
      requires Valid() && session.Valid()
      modifies session
      ensures session.Valid()
      ensures outcome == OutcomeOf(Values(), target)
      ensures completed <==> outcome == Solved
      ensures outcome == Solved ==>
                session.Snap() == old(session.Snap()).(score := Session.Rewarded(old(session.score), Tuning.BasePoints, session.difficulty))
      ensures outcome.WrongResult? ==>
                session.Snap() == old(session.Snap()).(score := Session.Penalised(old(session.score), session.difficulty))
      ensures outcome == Incomplete || outcome == DivisionByZero ==> session.Snap() == old(session.Snap())
    {
      outcome := OutcomeOf(Values(), target);
      completed := outcome == Solved;
      if outcome == Solved {
        session.AddScore(Tuning.BasePoints);
      } else if outcome.WrongResult? {
        session.ApplyPenalty();
      }
    }
  }
}
