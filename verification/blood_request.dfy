/** The blood-request form: the `appData.bloodRequest` draft, the unit
    counter shown on the page, and the urgency and blood-type button
    groups. */
module BloodRequest {
  import opened Selection

  /** `appData.bloodRequest`. */
  datatype Draft = Draft(
    bloodType: string,
    units: int,
    urgency: string,
    hospital: string,
    contact: string)

  const InitialDraft := Draft("O+", 2, "critical", "City General Hospital", "+1 234-567-8900")

  const MinUnits := 1
  const MaxUnits := 10

  /** The form as the page holds it: the draft, the number shown in
      `.unit-count` (which `changeUnits` reads back), and the two button
      groups. */
  datatype Form = Form(
    draft: Draft,
    shownUnits: int,
    urgencyButtons: ButtonGroup,
    bloodTypeButtons: ButtonGroup)

  /** The form invariant: the shown count is the draft's count and lies in
      [1, 10], and each button group has at most one active button, whose
      data attribute is the draft's value. */
  predicate FormConsistent(f: Form) {
    && MinUnits <= f.draft.units <= MaxUnits
    && f.shownUnits == f.draft.units
    && SingleChoice(f.urgencyButtons) && ActiveCarries(f.urgencyButtons, f.draft.urgency)
    && SingleChoice(f.bloodTypeButtons) && ActiveCarries(f.bloodTypeButtons, f.draft.bloodType)
  }

  function Clamp(v: int): int {
    if v < MinUnits then MinUnits else if v > MaxUnits then MaxUnits else v
  }

  /** `changeUnits(delta)`: the shown count plus `delta`, clamped to
      [1, 10], becomes both the shown count and the draft's units. */
  function ChangeUnits(f: Form, delta: int): (r: Form)
    ensures MinUnits <= r.draft.units <= MaxUnits
    ensures r.shownUnits == r.draft.units
    ensures MinUnits <= f.shownUnits + delta <= MaxUnits ==> r.draft.units == f.shownUnits + delta
    ensures f.shownUnits + delta < MinUnits ==> r.draft.units == MinUnits
    ensures f.shownUnits + delta > MaxUnits ==> r.draft.units == MaxUnits
    ensures r.draft == f.draft.(units := r.draft.units)
    ensures r.urgencyButtons == f.urgencyButtons && r.bloodTypeButtons == f.bloodTypeButtons
  {
    var units := Clamp(f.shownUnits + delta);
    f.(shownUnits := units, draft := f.draft.(units := units))
  }

  /** A change that stays inside the range is undone by the opposite
      change. */
  lemma ChangeUnitsUndo(f: Form, delta: int)
    requires MinUnits <= f.shownUnits <= MaxUnits
    requires MinUnits <= f.shownUnits + delta <= MaxUnits
    ensures ChangeUnits(ChangeUnits(f, delta), -delta).shownUnits == f.shownUnits
  {
  }

  /** Clicking the counter buttons `deltas` in order. */
  function ChangeUnitsAll(f: Form, deltas: seq<int>): Form
    decreases |deltas|
  {
    if |deltas| == 0 then f else ChangeUnitsAll(ChangeUnits(f, deltas[0]), deltas[1..])
  }

  /** However long the sequence of clicks, the form invariant is kept: the
      units never leave [1, 10] and the page shows the draft's value. */
  lemma {:induction false} ChangeUnitsAllKeepsForm(f: Form, deltas: seq<int>)
    requires FormConsistent(f)
    ensures FormConsistent(ChangeUnitsAll(f, deltas))
    decreases |deltas|
  {
    if |deltas| > 0 {
      ChangeUnitsAllKeepsForm(ChangeUnits(f, deltas[0]), deltas[1..]);
    }
  }

  /** `n` clicks of the same counter button. */
  function Repeat(delta: int, n: nat): (r: seq<int>)
    ensures |r| == n && forall i :: 0 <= i < n ==> r[i] == delta
  {
    if n == 0 then [] else [delta] + Repeat(delta, n - 1)
  }

  /** Five "+1" clicks from 2 show 7; eight "-1" clicks from 1 keep 1. */
  lemma UnitCounterExamples(f: Form)
    ensures f.shownUnits == 2 ==> ChangeUnitsAll(f, Repeat(1, 5)).shownUnits == 7
    ensures f.shownUnits == 1 ==> ChangeUnitsAll(f, Repeat(-1, 8)).shownUnits == 1
  {
  }

  /** The click listener of an `.urgency-btn`: that button becomes the only
      active urgency button and its `data-level` becomes the draft's
      urgency; nothing else changes. */
  function SelectUrgency(f: Form, i: nat): (r: Form)
    requires i < |f.urgencyButtons.values|
    ensures SingleChoice(r.urgencyButtons) && i in r.urgencyButtons.active
    ensures r.urgencyButtons.values == f.urgencyButtons.values && r.urgencyButtons.active == {i}
    ensures r.draft.urgency == f.urgencyButtons.values[i]
    ensures ActiveCarries(r.urgencyButtons, r.draft.urgency)
    ensures r.draft == f.draft.(urgency := r.draft.urgency)
    ensures r.(urgencyButtons := f.urgencyButtons, draft := f.draft) == f
  {
    var g := f.urgencyButtons;
    f.(urgencyButtons := Select(g, i), draft := f.draft.(urgency := g.values[i]))
  }

  /** The click listener of a `.blood-type-btn`, likewise for `data-type`. */
  function SelectBloodType(f: Form, i: nat): (r: Form)
    requires i < |f.bloodTypeButtons.values|
    ensures SingleChoice(r.bloodTypeButtons) && i in r.bloodTypeButtons.active
    ensures r.bloodTypeButtons.values == f.bloodTypeButtons.values && r.bloodTypeButtons.active == {i}
    ensures r.draft.bloodType == f.bloodTypeButtons.values[i]
    ensures ActiveCarries(r.bloodTypeButtons, r.draft.bloodType)
    ensures r.draft == f.draft.(bloodType := r.draft.bloodType)
    ensures r.(bloodTypeButtons := f.bloodTypeButtons, draft := f.draft) == f
  {
    var g := f.bloodTypeButtons;
    f.(bloodTypeButtons := Select(g, i), draft := f.draft.(bloodType := g.values[i]))
  }

  /** Each of the form's operations keeps the form invariant. */
  lemma FormOperationsKeepConsistent(f: Form, delta: int, i: nat)
    requires FormConsistent(f)
    ensures FormConsistent(ChangeUnits(f, delta))
    ensures i < |f.urgencyButtons.values| ==> FormConsistent(SelectUrgency(f, i))
    ensures i < |f.bloodTypeButtons.values| ==> FormConsistent(SelectBloodType(f, i))
  {
  }
}
