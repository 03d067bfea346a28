/** A group of single-choice buttons (`.urgency-btn`, `.blood-type-btn`,
    `.filter-tab`): clicking one removes the `active` class from every
    button of the group and adds it to the clicked one. */
module Selection {

  /** The buttons of one group in document order: each button's data
      attribute, and the indices that carry the `active` class. */
  datatype ButtonGroup = ButtonGroup(values: seq<string>, active: set<nat>)

  /** At most one button of the group is active, and it exists. */
  predicate SingleChoice(g: ButtonGroup) {
    && (forall k :: k in g.active ==> k < |g.values|)
    && (forall j, k :: j in g.active && k in g.active ==> j == k)
  }

  /** The active button, if any, carries the value `v`. */
  predicate ActiveCarries(g: ButtonGroup, v: string) {
    forall k :: k in g.active ==> k < |g.values| && g.values[k] == v
  }

  /** Click on button `i`: afterwards it is the only active button of the
      group, and the buttons themselves are unchanged. */
  function Select(g: ButtonGroup, i: nat): (r: ButtonGroup)
    requires i < |g.values|
    ensures r.values == g.values
    ensures SingleChoice(r) && i in r.active
    ensures ActiveCarries(r, g.values[i])
  {
    ButtonGroup(g.values, {i})
  }

  /** Clicking the same button twice is the same as clicking it once, and
      a later click wins over an earlier one. */
  lemma SelectLastClickWins(g: ButtonGroup, i: nat, j: nat)
    requires i < |g.values| && j < |g.values|
    ensures Select(Select(g, i), j) == Select(g, j)
    ensures Select(Select(g, i), i) == Select(g, i)
  {
  }
}
