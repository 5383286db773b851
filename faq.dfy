/** The FAQ page: an accordion of five questions whose open answers are the
    indices in `openItems`. */
module Faq {

  /** The number of entries in the page's question list. */
  const FaqCount: int := 5

  /** The set `toggleItem` stores: a copy of `open` with `index` removed when
      present and added otherwise. */
  function Toggled(open: set<int>, index: int): (r: set<int>)
    ensures index in r <==> index !in open
    ensures forall j | j != index :: j in r <==> j in open
    ensures index in open ==> |r| == |open| - 1
    ensures index !in open ==> |r| == |open| + 1
  {
    if index in open then open - {index} else open + {index}
  }

  /** Toggling the same index twice gives back the original set. */
  lemma ToggleTwice(open: set<int>, index: int)
    ensures Toggled(Toggled(open, index), index) == open
  {
  }

  /** Toggles of different indices commute. */
  lemma TogglesCommute(open: set<int>, i: int, j: int)
    ensures Toggled(Toggled(open, i), j) == Toggled(Toggled(open, j), i)
  {
  }

  /** Every open index belongs to a rendered question. */
  ghost predicate InRange(open: set<int>) {
    forall i | i in open :: 0 <= i < FaqCount
  }

  lemma ToggledStaysInRange(open: set<int>, index: int)
    requires InRange(open) && 0 <= index < FaqCount
    ensures InRange(Toggled(open, index))
  {
  }

  /** What one entry shows: whether its answer is expanded and how far its
      chevron is turned. */
  datatype ItemView = ItemView(answerVisible: bool, chevronDegrees: int)

  class FaqPage {
    var openItems: set<int>

    ghost predicate Valid()
      reads this
    {
      InRange(openItems)
    }

    /** `useState(new Set())`: every answer starts closed. */
    constructor ()
      ensures openItems == {}
      ensures Valid()
    {
      openItems := {};
    }

    /** `toggleItem(index)`: copy the set, delete or add `index` in the copy,
        store the copy. Values are immutable, so the previous set is untouched. */
    method ToggleItem(index: int)
      modifies this
      ensures openItems == Toggled(old(openItems), index)
      ensures old(Valid()) && 0 <= index < FaqCount ==> Valid()
    {
      var newOpenItems := openItems;
      if index in newOpenItems {
        newOpenItems := newOpenItems - {index};
      } else {
        newOpenItems := newOpenItems + {index};
      }
      openItems := newOpenItems;
    }

    /** The rendered entries: answer `i` is expanded and its chevron turned
        180 degrees exactly when `i` is open. */
    function Items(): (items: seq<ItemView>)
      reads this
      ensures |items| == FaqCount
      ensures forall i | 0 <= i < FaqCount ::
                (items[i].answerVisible <==> i in openItems) &&
                (items[i].chevronDegrees == 180 <==> i in openItems) &&
                (items[i].chevronDegrees == 0 <==> i !in openItems)
    {
      var open := openItems;
      seq(FaqCount, i requires 0 <= i < FaqCount =>
        ItemView(i in open, if i in open then 180 else 0))
    }
  }

  /** Clicking question `i` flips only its answer (`afterFirst` is the page
      after one click); a second click leaves the page as it was. */
  method ClickScenario(page: FaqPage, i: int) returns (afterFirst: seq<ItemView>)
    requires page.Valid() && 0 <= i < FaqCount
    modifies page
    ensures |afterFirst| == FaqCount
    ensures afterFirst[i].answerVisible <==> i !in old(page.openItems)
    ensures forall j | 0 <= j < FaqCount && j != i :: afterFirst[j].answerVisible <==> j in old(page.openItems)
    ensures page.Valid() && page.openItems == old(page.openItems)
  {
    var before := page.openItems;
    page.ToggleItem(i);
    afterFirst := page.Items();
    page.ToggleItem(i);
    ToggleTwice(before, i);
  }
}
