/** The reminders screen's adherence figure: `updateReminderStats` shows
    the share of active reminders as a whole percentage. */
module Reminders {
  import opened Optional

  datatype Reminder = Reminder(
    id: nat,
    name: string,
    frequency: string,
    nextDose: string,
    active: bool,
    icon: string)

  /** `appData.reminders`. */
  const SeedReminders: seq<Reminder> := [
    Reminder(1, "Blood Pressure Medication", "Every day at 9:00 AM", "Today 9:00 AM", true, "fas fa-pills"),
    Reminder(2, "Insulin Injection", "Before meals", "Today 12:30 PM", true, "fas fa-syringe"),
    Reminder(3, "Doctor Appointment", "Dr. Smith - Cardiology", "Tomorrow 2:00 PM", true, "fas fa-calendar-check")]

  /** The `active` flags of `rs`, in order. */
  function ActiveFlags(rs: seq<Reminder>): seq<bool> {
    seq(|rs|, i requires 0 <= i < |rs| => rs[i].active)
  }

  /** `reminders.filter(r => r.active).length`: the number of `true` flags. */
  function CountActive(rs: seq<Reminder>): (n: nat)
    ensures n == multiset(ActiveFlags(rs))[true]
    ensures n <= |rs|
    ensures n == 0 <==> forall i :: 0 <= i < |rs| ==> !rs[i].active
    ensures n == |rs| <==> forall i :: 0 <= i < |rs| ==> rs[i].active
    decreases |rs|
  {
    if |rs| == 0 then 0
    else
      assert ActiveFlags(rs) == [rs[0].active] + ActiveFlags(rs[1..]);
      (if rs[0].active then 1 else 0) + CountActive(rs[1..])
  }

  /** `Math.round(active / total * 100)`, computed exactly: `None` stands
      for the NaN an empty list produces. Otherwise the rate is the whole
      number nearest to 100 * active / total, halves rounded up, so it lies
      in [0, 100]. */
  function AdherenceRate(rs: seq<Reminder>): (r: Option<int>)
    ensures r.None? <==> |rs| == 0
    ensures r.Some? ==> 0 <= r.value <= 100
    ensures r.Some? ==>
      200 * CountActive(rs) - |rs| < 2 * |rs| * r.value <= 200 * CountActive(rs) + |rs|
  {
    if |rs| == 0 then None
    else
      var total := |rs|;
      var active := CountActive(rs);
      var rate := (200 * active + total) / (2 * total);
      RoundingBounds(active, total, rate);
      Some(rate)
  }

  /** The quotient used above is the rounded percentage. */
  lemma RoundingBounds(active: int, total: int, rate: int)
    requires 0 <= active <= total && 0 < total
    requires rate == (200 * active + total) / (2 * total)
    ensures 0 <= rate <= 100
    ensures 200 * active - total < 2 * total * rate <= 200 * active + total
  {
    var d := 2 * total;
    var rem := (200 * active + total) % d;
    assert 200 * active + total == d * rate + rem;
    if rate < 0 {
      ScaleBelow(d, rate, -1);
    }
    if rate > 100 {
      ScaleAbove(d, rate, 101);
    }
  }

  lemma ScaleBelow(d: int, x: int, k: int)
    requires d > 0 && x <= k
    ensures d * x <= d * k
  {
  }

  lemma ScaleAbove(d: int, x: int, k: int)
    requires d > 0 && x >= k
    ensures d * x >= d * k
  {
  }

  /** With every seeded reminder active the screen shows 100%. */
  lemma SeedAdherence()
    ensures AdherenceRate(SeedReminders) == Some(100)
  {
    assert CountActive(SeedReminders) == 3;
  }
}
