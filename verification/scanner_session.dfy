/**
 The state of the camera scanner component and the effect of each event on it:
 the decoder's result/error callback, starting and stopping the reader, camera
 switching, reset, the overlay timer and unmount.
 */
module ScannerSession {
  import opened Wrappers
  import opened Geometry
  import opened DecayTimer

  /** Name of the decoder's per-frame "nothing found" error. */
  const NotFoundName: string := "NotFoundException"

  /** Message shown when the camera cannot be started and the error has none. */
  const DefaultStartError: string := "Не удалось запустить камеру"

  /** A camera as listed by the device enumeration. */
  datatype Device = Device(deviceId: string, deviceLabel: string)

  /** A successful decode: the text and the decoder's points in frame pixels. */
  datatype DecodeResult = DecodeResult(text: string, points: seq<Point>)

  /** A decoder error: its class name and its message. */
  datatype DecodeError = DecodeError(name: string, message: string)

  /**
   The component's state. `hasReader` says whether a reader handle is held;
   `timer` is the overlay decay slot; `effectDeviceId` is the selection the
   camera-selection effect last ran for (its dependency as React remembers it).
   */
  datatype ScannerState = ScannerState(
    scannedText: Option<string>,
    error: Option<string>,
    devices: seq<Device>,
    selectedDeviceId: Option<string>,
    isScanning: bool,
    cameraRequested: bool,
    scanRegion: Option<ScanRegion>,
    hasReader: bool,
    timer: Timer,
    effectDeviceId: Option<string>)

  /**
   The state after mounting: nothing scanned, no error, no camera list or
   selection, no reader and nothing pending. The selection effect has run once
   for the empty selection.
   */
  function Initial(): (s: ScannerState)
    ensures Inv(s)
    ensures s.scannedText.None? && s.error.None? && s.scanRegion.None? && s.devices == []
    ensures !s.isScanning && !s.hasReader && !s.cameraRequested && s.timer.pending.None?
    ensures s.selectedDeviceId.None? && s.effectDeviceId == s.selectedDeviceId
  {
    ScannerState(None, None, [], None, false, false, None, false, NoTimer, None)
  }

  /** A stored region has a known frame width and, if it has points, at least one. */
  predicate RegionWellFormed(reg: ScanRegion) {
    reg.sourceWidth > 0 && (reg.points.Some? ==> |reg.points.value| > 0)
  }

  /**
   What every reachable state satisfies: a pending clear always has a region to
   clear, stored regions are well formed, and scanning implies a reader.
   */
  predicate Inv(s: ScannerState) {
    && s.timer.Valid()
    && (s.timer.pending.Some? ==> s.scanRegion.Some?)
    && (s.scanRegion.Some? ==> RegionWellFormed(s.scanRegion.value))
    && (s.isScanning ==> s.hasReader)
  }

  /** The region remembered for a decode in a frame of videoWidth x videoHeight. */
  function RegionOf(points: seq<Point>, videoWidth: nat, videoHeight: nat): (reg: ScanRegion)
    ensures reg.points.None? <==> |points| == 0
    ensures reg.points.Some? ==> reg.points.value == points
    ensures reg.sourceWidth == videoWidth && reg.sourceHeight == videoHeight
  {
    ScanRegion(if |points| > 0 then Some(points) else None, videoWidth, videoHeight)
  }

  /**
   Starting the reader (when the video element is mounted): the previous error
   is cleared and the component is scanning with a new reader.
   */
  function StartScanning(s: ScannerState, videoMounted: bool): (r: ScannerState)
    ensures !videoMounted ==> r == s
    ensures videoMounted ==>
              r.isScanning && r.hasReader && r.cameraRequested && r.error.None? &&
              r.scannedText == s.scannedText && r.scanRegion == s.scanRegion &&
              r.timer == s.timer && r.devices == s.devices && r.selectedDeviceId == s.selectedDeviceId
    ensures r.(hasReader := s.hasReader, error := s.error, isScanning := s.isScanning,
               cameraRequested := s.cameraRequested) == s
  {
    if !videoMounted then s
    else s.(hasReader := true, error := None, isScanning := true, cameraRequested := true)
  }

  /**
   Starting the camera failed: the error message (or the default one when the
   message is empty) is shown and scanning stops; the reader handle is kept.
   */
  function StartFailed(s: ScannerState, message: string): (r: ScannerState)
    ensures !r.isScanning && r.hasReader == s.hasReader
    ensures r.error.Some? && r.error.value != ""
    ensures message != "" ==> r.error == Some(message)
    ensures message == "" ==> r.error == Some(DefaultStartError)
    ensures r.(error := s.error, isScanning := s.isScanning) == s
  {
    s.(error := Some(if message == "" then DefaultStartError else message), isScanning := false)
  }

  /**
   The decoder's callback for one frame. A result replaces the scanned text
   (there is no latch); when the frame size is known it also stores the region
   and re-arms the decay timer. An error other than "not found" is shown.
   */
  function OnDecode(s: ScannerState, result: Option<DecodeResult>, err: Option<DecodeError>,
                    videoWidth: nat, videoHeight: nat): (r: ScannerState)
    ensures result.Some? ==> r.scannedText == Some(result.value.text)
    ensures result.None? ==> r.scannedText == s.scannedText
    ensures result.Some? && videoWidth > 0 ==>
              r.scanRegion == Some(RegionOf(result.value.points, videoWidth, videoHeight)) &&
              r.timer.pending.Some? && r.timer.pending.value >= s.timer.issued && r.timer == Arm(s.timer)
    ensures !(result.Some? && videoWidth > 0) ==> r.scanRegion == s.scanRegion && r.timer == s.timer
    ensures (r.error != s.error) ==> err.Some? && err.value.name != NotFoundName
    ensures err.Some? && err.value.name != NotFoundName ==> r.error == Some(err.value.message)
    ensures r.devices == s.devices && r.selectedDeviceId == s.selectedDeviceId
    ensures r.isScanning == s.isScanning && r.hasReader == s.hasReader && r.cameraRequested == s.cameraRequested
    ensures r.(scannedText := s.scannedText, scanRegion := s.scanRegion, timer := s.timer, error := s.error) == s
  {
    var s1 := if result.Some? then s.(scannedText := Some(result.value.text)) else s;
    var s2 := if result.Some? && videoWidth > 0 then
                s1.(scanRegion := Some(RegionOf(result.value.points, videoWidth, videoHeight)),
                    timer := Arm(s1.timer))
              else s1;
    if err.Some? && err.value.name != NotFoundName then s2.(error := Some(err.value.message)) else s2
  }

  /** Stops and drops the reader, if any; safe when there is none. */
  function StopScanning(s: ScannerState): (r: ScannerState)
    ensures !r.isScanning && !r.hasReader
    ensures r.scannedText == s.scannedText && r.scanRegion == s.scanRegion && r.error == s.error
    ensures r.timer == s.timer && r.selectedDeviceId == s.selectedDeviceId && r.devices == s.devices
    ensures r.(hasReader := s.hasReader, isScanning := s.isScanning) == s
  {
    s.(hasReader := false, isScanning := false)
  }

  /**
   The user picks another camera: scanning stops and the text is cleared. The
   region, the error and the decay timer are left as they are.
   */
  function SwitchCamera(s: ScannerState, deviceId: string): (r: ScannerState)
    ensures !r.isScanning && !r.hasReader
    ensures r.scannedText.None? && r.selectedDeviceId == Some(deviceId)
    ensures r.scanRegion == s.scanRegion && r.error == s.error && r.timer == s.timer
    ensures r.devices == s.devices
    ensures r.(hasReader := s.hasReader, isScanning := s.isScanning,
               scannedText := s.scannedText, selectedDeviceId := s.selectedDeviceId) == s
  {
    StopScanning(s).(scannedText := None, selectedDeviceId := Some(deviceId))
  }

  /**
   The camera-selection effect. React re-runs it only when the selection differs
   from the one it last ran for; it then starts a reader for the selected
   camera, unless none is selected, the video is not mounted or a reader is
   already held.
   */
  function SelectionChanged(s: ScannerState, videoMounted: bool): (r: ScannerState)
    ensures s.selectedDeviceId == s.effectDeviceId ==> r == s
    ensures s.selectedDeviceId != s.effectDeviceId ==> r.effectDeviceId == s.selectedDeviceId
    ensures s.selectedDeviceId != s.effectDeviceId && s.selectedDeviceId.Some? && videoMounted && !s.hasReader ==>
              r.isScanning && r.hasReader && r.cameraRequested && r.error.None? &&
              r.scannedText == s.scannedText && r.selectedDeviceId == s.selectedDeviceId
    ensures r.isScanning != s.isScanning ==>
              s.selectedDeviceId != s.effectDeviceId && s.selectedDeviceId.Some? && videoMounted && !s.hasReader
    ensures s.selectedDeviceId != s.effectDeviceId && !(s.selectedDeviceId.Some? && videoMounted && !s.hasReader) ==>
              r == s.(effectDeviceId := s.selectedDeviceId)
    ensures r.(effectDeviceId := s.effectDeviceId, hasReader := s.hasReader, isScanning := s.isScanning,
               error := s.error, cameraRequested := s.cameraRequested) == s
  {
    if s.selectedDeviceId == s.effectDeviceId then s
    else
      var ran := s.(effectDeviceId := s.selectedDeviceId);
      if ran.selectedDeviceId.None? || !videoMounted || ran.hasReader then ran
      else StartScanning(ran, true)
  }

  /**
   The user dismisses a result: text, region and error are cleared and the
   decay timer is cancelled; scanning carries on.
   */
  function ResetScan(s: ScannerState): (r: ScannerState)
    ensures r.scannedText.None? && r.scanRegion.None? && r.error.None?
    ensures r.timer.pending.None? && r.timer.issued == s.timer.issued
    ensures r.isScanning == s.isScanning && r.hasReader == s.hasReader
    ensures r.devices == s.devices && r.selectedDeviceId == s.selectedDeviceId
    ensures r.(timer := s.timer, scannedText := s.scannedText, scanRegion := s.scanRegion, error := s.error) == s
  {
    s.(timer := Cancel(s.timer), scannedText := None, scanRegion := None, error := None)
  }

  /** The decay timeout scheduled under `h` runs: a pending one clears the region. */
  function TimerFired(s: ScannerState, h: nat): (r: ScannerState)
    ensures IsPending(s.timer, h) ==> r.scanRegion.None? && r.timer.pending.None?
    ensures IsPending(s.timer, h) ==> r.(scanRegion := s.scanRegion, timer := s.timer) == s
    ensures IsPending(s.timer, h) ==> r.timer.issued == s.timer.issued
    ensures !IsPending(s.timer, h) ==> r == s
  {
    if IsPending(s.timer, h) then s.(scanRegion := None, timer := Fire(s.timer, h)) else s
  }

  /** Unmount: the decay timer is cancelled and the reader stopped. */
  function Teardown(s: ScannerState): (r: ScannerState)
    ensures r.timer.pending.None? && !r.isScanning && !r.hasReader
    ensures r.scannedText == s.scannedText && r.scanRegion == s.scanRegion && r.error == s.error
    ensures r.timer.issued == s.timer.issued
    ensures r.(timer := s.timer, hasReader := s.hasReader, isScanning := s.isScanning) == s
  {
    StopScanning(s.(timer := Cancel(s.timer)))
  }

  /** The camera list arrived; it replaces the previous list. */
  function DevicesListed(s: ScannerState, devices: seq<Device>): (r: ScannerState)
    ensures r.devices == devices
    ensures r.(devices := s.devices) == s
  {
    s.(devices := devices)
  }

  /** Everything that can happen to the component. */
  datatype Event =
    | Start(videoMounted: bool)
    | StartFailure(message: string)
    | Decoded(result: Option<DecodeResult>, err: Option<DecodeError>, videoWidth: nat, videoHeight: nat)
    | Stop
    | Switch(deviceId: string)
    | Selection(videoMounted: bool)
    | Reset
    | Fired(handle: nat)
    | Unmount
    | Listed(devices: seq<Device>)

  function Step(s: ScannerState, e: Event): ScannerState {
    match e
    case Start(m) => StartScanning(s, m)
    case StartFailure(msg) => StartFailed(s, msg)
    case Decoded(res, err, w, h) => OnDecode(s, res, err, w, h)
    case Stop => StopScanning(s)
    case Switch(id) => SwitchCamera(s, id)
    case Selection(m) => SelectionChanged(s, m)
    case Reset => ResetScan(s)
    case Fired(h) => TimerFired(s, h)
    case Unmount => Teardown(s)
    case Listed(ds) => DevicesListed(s, ds)
  }

  /** The state after a sequence of events. */
  function Run(s: ScannerState, events: seq<Event>): ScannerState
    decreases |events|
  {
    if |events| == 0 then s else Run(Step(s, events[0]), events[1..])
  }

  /** Every event keeps the invariant. */
  lemma StepKeepsInv(s: ScannerState, e: Event)
    requires Inv(s)
    ensures Inv(Step(s, e))
  {
  }

  /** The invariant holds initially and after any sequence of events. */
  lemma {:induction false} RunKeepsInv(s: ScannerState, events: seq<Event>)
    requires Inv(s)
    ensures Inv(Run(s, events))
    decreases |events|
  {
    if |events| > 0 {
      StepKeepsInv(s, events[0]);
      RunKeepsInv(Step(s, events[0]), events[1..]);
    }
  }

  /**
   Two results in a row with a known frame size: only the second region is
   shown, the first one's clear can no longer fire, the second's clears the
   region once, and the text is the second result's.
   */
  lemma SecondResultSupersedesFirst(s: ScannerState, a: DecodeResult, b: DecodeResult, w: nat, h: nat)
    requires w > 0
    ensures var sa := OnDecode(s, Some(a), None, w, h);
            var sb := OnDecode(sa, Some(b), None, w, h);
            var ha, hb := sa.timer.pending.value, sb.timer.pending.value;
            sb.scannedText == Some(b.text) &&
            sb.scanRegion == Some(RegionOf(b.points, w, h)) &&
            TimerFired(sb, ha) == sb &&
            TimerFired(sb, hb).scanRegion.None? &&
            TimerFired(TimerFired(sb, hb), hb) == TimerFired(sb, hb)
  {
  }

  /**
   Switching to a camera other than the one the selection effect last ran for,
   and then running the effect, restarts scanning on it with text and error
   cleared.
   */
  lemma SwitchThenSelectionRestarts(s: ScannerState, deviceId: string)
    requires s.effectDeviceId != Some(deviceId)
    ensures var r := SelectionChanged(SwitchCamera(s, deviceId), true);
            r.isScanning && r.hasReader && r.scannedText.None? && r.error.None? &&
            r.selectedDeviceId == Some(deviceId) && r.effectDeviceId == Some(deviceId)
  {
  }

  /**
   Switching to the camera that is already selected (its button stays
   clickable) stops the reader, but the selection does not change, so the
   effect does not run again and scanning stays stopped.
   */
  lemma SwitchToSelectedCameraStaysStopped(s: ScannerState, deviceId: string, videoMounted: bool)
    requires s.selectedDeviceId == Some(deviceId) && s.effectDeviceId == s.selectedDeviceId
    ensures var r := SelectionChanged(SwitchCamera(s, deviceId), videoMounted);
            !r.isScanning && !r.hasReader && r.scannedText.None? && r.selectedDeviceId == Some(deviceId)
  {
  }
}
