/** The file chooser of the Android host: `onShowFileChooser` keeps the
    WebView's callback as the pending one, and `onActivityResult` answers
    it once and forgets it. */
module FileChooser {
  import opened Optional

  const FileChooserRequestCode := 1002
  /** `Activity.RESULT_OK`. */
  const ResultOk := -1

  datatype Uri = Uri(text: string)

  /** The result intent; `getData()` may itself be null. */
  datatype IntentData = IntentData(data: Option<Uri>)

  /** Callbacks are told apart by a handle. */
  type Callback = nat

  /** The `fileUploadCallback` field. */
  datatype Chooser = Chooser(pending: Option<Callback>)

  /** One `onReceiveValue` call: the callback and the value it gets, where
      `None` is the null array. */
  datatype Delivery = Delivery(callback: Callback, files: Option<seq<Option<Uri>>>)

  /** `onShowFileChooser`: the new callback replaces any pending one, and
      the method returns true. */
  function OnShowFileChooser(c: Chooser, cb: Callback): (r: (Chooser, bool))
    ensures r.0.pending == Some(cb) && r.1
  {
    (Chooser(Some(cb)), true)
  }

  /** `onActivityResult`: for the chooser's request code and a pending
      callback, that callback receives a one-element array when the result
      is OK and carries an intent, null otherwise, and is then cleared. In
      every other case nothing is delivered and nothing changes. */
  function OnActivityResult(c: Chooser, requestCode: int, resultCode: int, data: Option<IntentData>): (r: (Chooser, Option<Delivery>))
    ensures r.1.Some? <==> requestCode == FileChooserRequestCode && c.pending.Some?
    ensures r.1.Some? ==>
      && r.0.pending == None
      && r.1.value.callback == c.pending.value
      && (r.1.value.files.Some? <==> resultCode == ResultOk && data.Some?)
      && (r.1.value.files.Some? ==> r.1.value.files.value == [data.value.data])
    ensures r.1.None? ==> r.0 == c
  {
    if requestCode == FileChooserRequestCode && c.pending.Some? then
      var files := if resultCode == ResultOk && data.Some? then Some([data.value.data]) else None;
      (Chooser(None), Some(Delivery(c.pending.value, files)))
    else
      (c, None)
  }

  /** A callback is answered at most once: right after an answer, no
      further result reaches anyone. */
  lemma AnsweredAtMostOnce(c: Chooser, code1: int, result1: int, data1: Option<IntentData>,
                           code2: int, result2: int, data2: Option<IntentData>)
    requires OnActivityResult(c, code1, result1, data1).1.Some?
    ensures OnActivityResult(OnActivityResult(c, code1, result1, data1).0, code2, result2, data2).1.None?
  {
  }

  /** A callback replaced by a second `onShowFileChooser` before any result
      arrives is never answered: the next result goes to the newer one. */
  lemma ReplacedCallbackDropped(c: Chooser, cb1: Callback, cb2: Callback, code: int, result: int, data: Option<IntentData>)
    requires OnActivityResult(OnShowFileChooser(OnShowFileChooser(c, cb1).0, cb2).0, code, result, data).1.Some?
    ensures OnActivityResult(OnShowFileChooser(OnShowFileChooser(c, cb1).0, cb2).0, code, result, data).1.value.callback == cb2
  {
  }

  datatype ChooserEvent =
    | Show(cb: Callback)
    | Result(requestCode: int, resultCode: int, data: Option<IntentData>)

  /** Runs the events in order and collects the deliveries made. */
  function RunChooser(c: Chooser, events: seq<ChooserEvent>): (Chooser, seq<Delivery>)
    decreases |events|
  {
    if |events| == 0 then (c, [])
    else
      match events[0]
      case Show(cb) =>
        RunChooser(OnShowFileChooser(c, cb).0, events[1..])
      case Result(code, result, data) =>
        var (c', d) := OnActivityResult(c, code, result, data);
        var (final, ds) := RunChooser(c', events[1..]);
        (final, (if d.Some? then [d.value] else []) + ds)
  }

  function Pending(c: Chooser): nat {
    if c.pending.Some? then 1 else 0
  }

  function CountShows(events: seq<ChooserEvent>): nat
    decreases |events|
  {
    if |events| == 0 then 0 else (if events[0].Show? then 1 else 0) + CountShows(events[1..])
  }

  /** Over any run, answers never outnumber the callbacks handed over:
      answers plus a still-pending callback are at most the callbacks
      shown (plus one already pending at the start). */
  lemma {:induction false} DeliveriesBoundedByShows(c: Chooser, events: seq<ChooserEvent>)
    ensures |RunChooser(c, events).1| + Pending(RunChooser(c, events).0) <= Pending(c) + CountShows(events)
    decreases |events|
  {
    if |events| > 0 {
      match events[0]
      case Show(cb) =>
        DeliveriesBoundedByShows(OnShowFileChooser(c, cb).0, events[1..]);
      case Result(code, result, data) =>
        DeliveriesBoundedByShows(OnActivityResult(c, code, result, data).0, events[1..]);
    }
  }
}
