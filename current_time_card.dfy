/** currentTimeCard/currentTimeCard.js: a card kept in local storage, whose
    entries are plain objects edited field by field, and a submit flag. Each
    transition yields the new state and the value written back to storage. */
module CurrentTimeCard {
  import opened Options

  /** An entry object: field name to value. */
  type Entry = map<string, string>

  datatype Card = Card(entries: seq<Entry>, isSubmitted: bool)

  /** The state a transition produces and what it writes to `localStorage`. */
  datatype Step = Step(state: Card, stored: Card)

  /** The initial state. */
  const Empty := Card([], false)

  /** The mount effect: a stored card replaces the state wholesale; with
      nothing stored the state stays as it is. */
  function Load(current: Card, saved: Option<Card>): (r: Card)
    ensures saved.None? ==> r == current
    ensures saved.Some? ==> r == saved.value
  {
    match saved
    case None => current
    case Some(c) => c
  }

  /** `handleChange(index, field, value)`: entry `index` gets `field` set to
      `value`; every other entry is the same object; an index outside the list
      changes no entry. The stored card is the new state. */
  function HandleChange(card: Card, index: int, field: string, value: string): (step: Step)
    ensures |step.state.entries| == |card.entries|
    ensures step.state.isSubmitted == card.isSubmitted
    ensures forall i :: 0 <= i < |card.entries| && i != index ==> step.state.entries[i] == card.entries[i]
    ensures 0 <= index < |card.entries| ==>
              && field in step.state.entries[index] && step.state.entries[index][field] == value
              && forall f :: f != field ==>
                   (f in step.state.entries[index] <==> f in card.entries[index])
                   && (f in card.entries[index] ==> step.state.entries[index][f] == card.entries[index][f])
    ensures step.stored == step.state
  {
    var updated := seq(|card.entries|, i requires 0 <= i < |card.entries| =>
      if i == index then card.entries[i][field := value] else card.entries[i]);
    var next := card.(entries := updated);
    Step(next, next)
  }

  /** An index outside the entries leaves the card as it was. */
  lemma ChangeOutOfRange(card: Card, index: int, field: string, value: string)
    requires index < 0 || index >= |card.entries|
    ensures HandleChange(card, index, field, value).state == card
  {
    var s := HandleChange(card, index, field, value).state;
    assert s.entries == card.entries;
  }

  /** Repeating an edit changes nothing more, and the last of two edits of the
      same field wins. */
  lemma ChangeLastWins(card: Card, index: int, field: string, v1: string, v2: string)
    ensures var once := HandleChange(card, index, field, v2).state;
      HandleChange(HandleChange(card, index, field, v1).state, index, field, v2).state == once
      && HandleChange(once, index, field, v2).state == once
  {
    var once := HandleChange(card, index, field, v2).state;
    var mid := HandleChange(card, index, field, v1).state;
    var twice := HandleChange(mid, index, field, v2).state;
    var again := HandleChange(once, index, field, v2).state;
    assert twice.entries == once.entries by {
      forall i | 0 <= i < |once.entries| ensures twice.entries[i] == once.entries[i] {
        if i == index {
          assert mid.entries[i][field := v2] == card.entries[i][field := v2];
        }
      }
    }
    assert again.entries == once.entries by {
      forall i | 0 <= i < |once.entries| ensures again.entries[i] == once.entries[i] {
        if i == index {
          assert once.entries[i][field := v2] == once.entries[i];
        }
      }
    }
  }

  /** Edits of different entries, or of different fields, commute. */
  lemma ChangesCommute(card: Card, i: int, f: string, v: string, j: int, g: string, w: string)
    requires i != j || f != g
    ensures HandleChange(HandleChange(card, i, f, v).state, j, g, w).state
         == HandleChange(HandleChange(card, j, g, w).state, i, f, v).state
  {
    var a := HandleChange(HandleChange(card, i, f, v).state, j, g, w).state;
    var b := HandleChange(HandleChange(card, j, g, w).state, i, f, v).state;
    assert a.entries == b.entries by {
      forall k | 0 <= k < |a.entries| ensures a.entries[k] == b.entries[k] {
        if k == i && k == j {
          assert card.entries[k][f := v][g := w] == card.entries[k][g := w][f := v];
        }
      }
    }
  }

  /** `handleSubmit`: the card is marked submitted and its entries are kept;
      the stored card is the new state. */
  function HandleSubmit(card: Card): (step: Step)
    ensures step.state.isSubmitted
    ensures step.state.entries == card.entries
    ensures step.stored == step.state
  {
    var next := card.(isSubmitted := true);
    Step(next, next)
  }

  /** Submitting twice is submitting once. */
  lemma SubmitIdempotent(card: Card)
    ensures HandleSubmit(HandleSubmit(card).state) == HandleSubmit(card)
  {
  }
}
