/**
 The simple QR reader page: the first scan with a text is kept ("latched")
 until Refresh; while nothing is kept the reader is shown, and a kept scan's
 text is shown as an embedded page.
 */
module QrLatch {
  import opened Wrappers

  /** A scan reported by the reader; a missing or falsy text is the empty string. */
  datatype ScanEvent = ScanEvent(text: string)

  /** The stored scan: the empty object, or the accepted event. */
  datatype QrData = NoData | Data(event: ScanEvent)

  /** The stored object has no keys. */
  predicate IsEmpty(d: QrData) {
    d.NoData?
  }

  /**
   A scan (or the reader's empty report, None) is stored only when it carries a
   text and nothing is stored yet.
   */
  function HandleScan(d: QrData, e: Option<ScanEvent>): (r: QrData)
    ensures r != d <==> e.Some? && e.value.text != "" && IsEmpty(d)
    ensures r != d ==> r == Data(e.value)
    ensures !IsEmpty(d) ==> r == d
  {
    if e.Some? && e.value.text != "" && IsEmpty(d) then Data(e.value) else d
  }

  /** The Refresh button: back to the empty object, whatever was stored. */
  function Refresh(d: QrData): (r: QrData)
    ensures IsEmpty(r)
  {
    NoData
  }

  /** A reader error is only logged; the stored scan is untouched. */
  function HandleError(d: QrData, message: string): (r: QrData)
    ensures r == d
  {
    d
  }

  /** The address of the embedded page: the stored text, when it is truthy. */
  function IframeSrc(d: QrData): (src: Option<string>)
    ensures src.Some? ==> d.Data? && src.value == d.event.text && src.value != ""
    ensures d.Data? && d.event.text != "" ==> src.Some?
  {
    if d.Data? && d.event.text != "" then Some(d.event.text) else None
  }

  /**
   The reader is on screen exactly while nothing is stored, so it is never
   shown together with the embedded page.
   */
  predicate ScannerVisible(d: QrData)
    ensures ScannerVisible(d) ==> IframeSrc(d).None?
  {
    IsEmpty(d)
  }

  /** Everything that can happen to the page. */
  datatype QrEvent = Scan(e: Option<ScanEvent>) | RefreshClicked | ReaderError(message: string)

  function QrStep(d: QrData, ev: QrEvent): QrData {
    match ev
    case Scan(e) => HandleScan(d, e)
    case RefreshClicked => Refresh(d)
    case ReaderError(m) => HandleError(d, m)
  }

  function QrRun(d: QrData, events: seq<QrEvent>): QrData
    decreases |events|
  {
    if |events| == 0 then d else QrRun(QrStep(d, events[0]), events[1..])
  }

  /** Every stored scan has a truthy text. */
  predicate Reachable(d: QrData) {
    d.Data? ==> d.event.text != ""
  }

  lemma {:induction false} RunKeepsReachable(d: QrData, events: seq<QrEvent>)
    requires Reachable(d)
    ensures Reachable(QrRun(d, events))
    decreases |events|
  {
    if |events| > 0 {
      RunKeepsReachable(QrStep(d, events[0]), events[1..]);
    }
  }

  /**
   In every reachable state exactly one of the reader and the embedded page is
   shown, and the page shows the stored text.
   */
  lemma ViewIsExclusive(d: QrData)
    requires Reachable(d)
    ensures ScannerVisible(d) <==> IframeSrc(d).None?
    ensures !ScannerVisible(d) ==> IframeSrc(d) == Some(d.event.text)
  {
  }

  /**
   The latch: once a scan is stored, no sequence of scans and errors changes it;
   only Refresh does.
   */
  lemma {:induction false} LatchHoldsUntilRefresh(d: QrData, events: seq<QrEvent>)
    requires !IsEmpty(d)
    requires forall i :: 0 <= i < |events| ==> !events[i].RefreshClicked?
    ensures QrRun(d, events) == d
    decreases |events|
  {
    if |events| > 0 {
      LatchHoldsUntilRefresh(QrStep(d, events[0]), events[1..]);
    }
  }

  /** From the empty state the first scan with a text is the one kept. */
  lemma {:induction false} FirstTextualScanWins(events: seq<QrEvent>, k: nat)
    requires k < |events| && events[k].Scan? && events[k].e.Some? && events[k].e.value.text != ""
    requires forall i :: 0 <= i < |events| ==> !events[i].RefreshClicked?
    requires forall i :: 0 <= i < k ==> events[i].Scan? ==> events[i].e.None? || events[i].e.value.text == ""
    ensures QrRun(NoData, events) == Data(events[k].e.value)
    decreases k
  {
    if k == 0 {
      LatchHoldsUntilRefresh(Data(events[0].e.value), events[1..]);
    } else {
      assert QrStep(NoData, events[0]) == NoData;
      FirstTextualScanWins(events[1..], k - 1);
    }
  }
}
