/** The medical-records filter tabs: `filterMedicalRecords(filter)` shows
    or hides every `.record-item` from its lower-cased title alone. */
module MedicalRecords {
  import opened Text
  import opened Selection

  /** A `.record-item`: the text of its `.record-info h4` title, and the
      rest of its content, which the filter never reads. */
  datatype MedicalRecord = MedicalRecord(title: string, details: string)

  const ShowAll := "all"

  /** Whether the record titled `title` is displayed under `filter`. */
  predicate RecordVisible(filter: string, title: string) {
    if filter == ShowAll then true
    else
      var recordType := Lower(title);
      || Contains(recordType, filter)
      || (filter == "prescriptions" && Contains(recordType, "prescription"))
      || (filter == "tests" && Contains(recordType, "test"))
      || (filter == "visits" && Contains(recordType, "exam"))
  }

  /** What `RecordVisible` means, tab by tab, in terms of substrings of
      the lower-cased title. */
  predicate TabMeaning(filter: string, title: string) {
    && (filter == ShowAll ==> RecordVisible(filter, title))
    && (filter == "prescriptions" ==> (RecordVisible(filter, title) <==> Contains(Lower(title), "prescription")))
    && (filter == "tests" ==> (RecordVisible(filter, title) <==> Contains(Lower(title), "test")))
    && (filter == "visits" ==>
         (RecordVisible(filter, title) <==> Contains(Lower(title), "visits") || Contains(Lower(title), "exam")))
    && (filter !in {ShowAll, "prescriptions", "tests", "visits"} ==>
         (RecordVisible(filter, title) <==> Contains(Lower(title), filter)))
  }

  /** `filterMedicalRecords(filter)`: one display flag per record, in
      document order. The `all` tab shows every record; the three plural
      tabs show the titles mentioning their alias; any other tab shows the
      titles that contain it after lower-casing; and records with the same
      title are treated alike. */
  function FilterMedicalRecords(filter: string, records: seq<MedicalRecord>): (shown: seq<bool>)
    ensures |shown| == |records|
    ensures filter == ShowAll ==> forall i :: 0 <= i < |records| ==> shown[i]
    ensures filter == "prescriptions" ==>
      forall i :: 0 <= i < |records| ==> (shown[i] <==> Contains(Lower(records[i].title), "prescription"))
    ensures filter == "tests" ==>
      forall i :: 0 <= i < |records| ==> (shown[i] <==> Contains(Lower(records[i].title), "test"))
    ensures filter == "visits" ==>
      forall i :: 0 <= i < |records| ==>
        (shown[i] <==> Contains(Lower(records[i].title), "visits") || Contains(Lower(records[i].title), "exam"))
    ensures filter !in {ShowAll, "prescriptions", "tests", "visits"} ==>
      forall i :: 0 <= i < |records| ==> (shown[i] <==> Contains(Lower(records[i].title), filter))
    ensures forall i, j :: 0 <= i < |records| && 0 <= j < |records| && records[i].title == records[j].title ==>
      shown[i] == shown[j]
  {
    var shown := seq(|records|, i requires 0 <= i < |records| => RecordVisible(filter, records[i].title));
    assert forall i :: 0 <= i < |records| ==> shown[i] == RecordVisible(filter, records[i].title);
    assert forall i :: 0 <= i < |records| ==> TabMeaning(filter, records[i].title) by {
      forall i | 0 <= i < |records|
        ensures TabMeaning(filter, records[i].title)
      {
        if filter in {ShowAll, "prescriptions", "tests", "visits"} {
          AliasTabs(records[i].title);
        } else {
          OtherTabs(filter, records[i].title);
        }
      }
    }
    shown
  }

  /** The `all` tab shows every record. */
  lemma AllShowsEverything(records: seq<MedicalRecord>)
    ensures forall i :: 0 <= i < |records| ==> FilterMedicalRecords(ShowAll, records)[i]
  {
  }

  /** The aliases make the plural tabs match the singular word: since a
      title containing "prescriptions" contains "prescription", the
      `prescriptions` tab shows exactly the titles mentioning
      "prescription" (likewise `tests` and "test"); the `visits` tab shows
      titles mentioning "visits" or "exam". */
  lemma AliasTabs(title: string)
    ensures RecordVisible("prescriptions", title) <==> Contains(Lower(title), "prescription")
    ensures RecordVisible("tests", title) <==> Contains(Lower(title), "test")
    ensures RecordVisible("visits", title) <==> Contains(Lower(title), "visits") || Contains(Lower(title), "exam")
  {
    if Contains(Lower(title), "prescriptions") {
      assert "prescriptions" == "prescription" + "s";
      ContainsPrefixOf(Lower(title), "prescription", "s");
    }
    if Contains(Lower(title), "tests") {
      assert "tests" == "test" + "s";
      ContainsPrefixOf(Lower(title), "test", "s");
    }
  }

  /** Any other tab shows exactly the titles that contain its name, case
      ignored on the title's side only; an empty filter shows everything. */
  lemma OtherTabs(filter: string, title: string)
    requires filter !in {ShowAll, "prescriptions", "tests", "visits"}
    ensures RecordVisible(filter, title) <==> Contains(Lower(title), filter)
    ensures filter == "" ==> RecordVisible(filter, title)
  {
    if filter == "" {
      ContainsEmpty(Lower(title));
    }
  }

  /** The click listener of a `.filter-tab`: that tab becomes the only
      active one and the records are filtered by its `data-filter`. */
  function OnFilterTab(tabs: ButtonGroup, i: nat, records: seq<MedicalRecord>): (r: (ButtonGroup, seq<bool>))
    requires i < |tabs.values|
    ensures r.0.active == {i} && r.0.values == tabs.values
    ensures SingleChoice(r.0) && ActiveCarries(r.0, tabs.values[i])
    ensures |r.1| == |records|
    ensures forall k :: 0 <= k < |records| ==> r.1[k] == RecordVisible(tabs.values[i], records[k].title)
  {
    (Select(tabs, i), FilterMedicalRecords(tabs.values[i], records))
  }

  /** Clicking a tab again changes nothing, and a later click wins: the
      tabs and the shown records are those of the last clicked tab. */
  lemma FilterTabLastClickWins(tabs: ButtonGroup, i: nat, j: nat, records: seq<MedicalRecord>)
    requires i < |tabs.values| && j < |tabs.values|
    ensures OnFilterTab(OnFilterTab(tabs, i, records).0, j, records) == OnFilterTab(tabs, j, records)
    ensures OnFilterTab(OnFilterTab(tabs, i, records).0, i, records) == OnFilterTab(tabs, i, records)
  {
  }
}
