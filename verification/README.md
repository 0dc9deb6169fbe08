# Camera QR / Data Matrix scanner — overlay geometry and scan state in Dafny

This project models the logic core of a Next.js page that scans QR and Data
Matrix codes from a camera. Two parts of it are modelled:

- **Overlay geometry** (`ZxingScanner` component). Decoder points in raw frame
  pixels are mapped to display pixels under a "cover" fit (`mapPointsToDisplay`).
  They are boxed into a highlight rectangle of at least 20 display pixels per
  side, clamped into the display (`MIN_RECT`, `pointsToRect`). When there is no
  usable geometry, the render code draws a centred fallback square instead. All
  geometry is over `real`.
- **Scan state** as pure transition functions on immutable records:
  - `ZxingScanner`: the decoder's result/error callback, start/stop of the reader,
    camera switching, reset, unmount and the device list.
  - The single-slot overlay decay timer, whose handles stand for `setTimeout` ids.
  - `Qr`: the latch of the simple reader page (`handleScan`, `refresh`,
    `handleError`) and which of the reader and the result frame is shown.

Modules, one per concept: `Wrappers` (Option), `Geometry` (points, rectangles,
scan region, min/max of a list), `DisplayMapping`, `ScanRect`, `Overlay`,
`DecayTimer`, `ScannerSession`, `QrLatch`.

Behaviour of the code that the model keeps:

- The `ZxingScanner` result callback does not latch. Every result overwrites
  the scanned text (`ScannerSession.OnDecode`). Only the `Qr` page latches.
- `switchCamera` stops the reader, clears the text and sets the selection. It
  does not clear the region or the error, and it does not cancel the decay timer.
- The region and the timer are updated only when the video reports a non-zero
  frame width. The text is updated for every result.
- The highlight rectangle is not shrunk to fit. When a side is longer than the
  display, its origin is clamped to 0 and the rectangle overhangs the display.
- The fallback square has side `0.4 * min(w, h)`. This can be smaller than 20.
- The camera-selection effect re-runs only when the selected id changes. The
  active camera's button stays clickable, and clicking it stops the reader
  without changing the selection, so scanning stays stopped
  (`ScannerSession.SwitchToSelectedCameraStaysStopped`).

## Model

| member | source | states |
|---|---|---|
| Geometry.MinOf | src/components/ZxingScanner/index.jsx:34-35 | the minimum is an element of the list and no element is below it |
| Geometry.MaxOf | src/components/ZxingScanner/index.jsx:36-37 | the maximum is an element of the list and no element is above it |
| Geometry.Xs | src/components/ZxingScanner/index.jsx:32 | one x coordinate per point, in order |
| Geometry.Ys | src/components/ZxingScanner/index.jsx:33 | one y coordinate per point, in order |
| DisplayMapping.CoverScale | src/components/ZxingScanner/index.jsx:16-18 | the scale is one of the two axis ratios and, for a positive frame, makes the scaled frame cover the display on both axes; it is positive for a positive display |
| DisplayMapping.OffsetX | src/components/ZxingScanner/index.jsx:17-19 | the horizontal offset puts the scaled frame's middle on the display's middle and is never positive for a positive frame |
| DisplayMapping.OffsetY | src/components/ZxingScanner/index.jsx:18-20 | the vertical offset puts the scaled frame's middle on the display's middle and is never positive for a positive frame |
| DisplayMapping.MapPoint | src/components/ZxingScanner/index.jsx:21-24 | a point's offset from the display's centre is its offset from the frame's centre times the cover scale, on each axis |
| DisplayMapping.FramePointLandsInImage | src/components/ZxingScanner/index.jsx:16-24 | a point inside the frame lands inside the scaled, centred image of the frame |
| DisplayMapping.MapPointsToDisplay | src/components/ZxingScanner/index.jsx:14-25 | empty result for no points or a zero frame side; otherwise one mapped point per input point, each scaled by the cover factor and shifted by the centring offsets |
| DisplayMapping.CoverScaleIsLeastCovering | src/components/ZxingScanner/index.jsx:16-18 | the scaled frame covers the display on both axes, fits it exactly on at least one, and no smaller factor covers both |
| DisplayMapping.CentreMapsToCentre | src/components/ZxingScanner/index.jsx:16-24 | the frame's centre maps to the display's centre |
| DisplayMapping.MapPointIsUniform | src/components/ZxingScanner/index.jsx:16-24 | horizontal and vertical distances are stretched by the same factor, so aspect ratio is kept |
| DisplayMapping.MapPointKeepsOrder | src/components/ZxingScanner/index.jsx:21-24 | for a positive frame and display, the order of points along each axis is kept both ways |
| DisplayMapping.SameSizeIsIdentity | src/components/ZxingScanner/index.jsx:14-25 | a frame the size of the display maps every point to itself |
| DisplayMapping.ScaleTwoExample | src/components/ZxingScanner/index.jsx:14-25 | on a 50x50 frame shown at 100x100, point (25,25) maps to (50,50) |
| ScanRect.BoundingSpan | src/components/ZxingScanner/index.jsx:32-37 | the box of the values is the tightest interval holding all of them: both ends are values |
| ScanRect.Grow | src/components/ZxingScanner/index.jsx:38-45 | the grown side is max(extent, 20), has the same centre and contains the original span |
| ScanRect.Clamp | src/components/ZxingScanner/index.jsx:47-48 | the origin is never negative; it ends inside the display when the side fits; it is 0 when the side does not fit; an origin already inside is kept |
| ScanRect.PointsToRect | src/components/ZxingScanner/index.jsx:30-50 | None exactly for no points; otherwise both sides are at least 20, the origin is non-negative and a side that fits ends inside the display; where the origin lands is stated by `ScanRect.OriginIsLeastShift` |
| ScanRect.SidesAreExtentOrMinimum | src/components/ZxingScanner/index.jsx:36-45 | each side equals max(bounding-box extent, 20) |
| ScanRect.ClampIsNearest | src/components/ZxingScanner/index.jsx:47-48 | the clamped origin is the allowed position closest to the unclamped one |
| ScanRect.InsideBoxUnchanged | src/components/ZxingScanner/index.jsx:38-49 | a grown box already inside the display is returned unchanged and holds every point |
| ScanRect.OriginIsLeastShift | src/components/ZxingScanner/index.jsx:38-48 | the clamp shifts the grown box by the least amount: on an axis where it fits, the origin is the allowed position nearest the grown box's origin; where it does not fit, the origin is 0 |
| ScanRect.FittingBoxHoldsPoints | src/components/ZxingScanner/index.jsx:27-48 | when every point is on the display and the grown box fits, the clamped rectangle still surrounds every point |
| ScanRect.SinglePointCentred | src/components/ZxingScanner/index.jsx:30-50 | a single point away from the edges gives a 20x20 square centred on it |
| ScanRect.CornerPointExample | src/components/ZxingScanner/index.jsx:30-50 | point (10,10) on a 300x300 display gives the 20x20 square at the origin |
| Overlay.FallbackRect | src/components/ZxingScanner/index.jsx:219-228 | a square of side 0.4 * min(w, h), centred on the display, and inside it for a positive display |
| Overlay.PointsRect | src/components/ZxingScanner/index.jsx:209-218 | there is a rectangle from the points exactly when the region has points and a non-zero frame size, and it is at least 20 on each side |
| Overlay.OverlayRect | src/components/ZxingScanner/index.jsx:202-228 | nothing is drawn exactly when there is no region or a display side is 0; a drawn rectangle has positive sides, a non-negative origin, and ends inside the display on each axis where it fits |
| Overlay.FallbackExactlyWithoutGeometry | src/components/ZxingScanner/index.jsx:209-228 | the fallback is drawn when the region has no points or a zero frame side; otherwise the drawn rectangle is the one around the mapped points, at least 20 on each side |
| Overlay.FallbackExample | src/components/ZxingScanner/index.jsx:219-228 | without points, a 400x300 display gets the 120x120 square at (140,90) |
| DecayTimer.Cancel | src/components/ZxingScanner/index.jsx:183-186 | after cancelling nothing is pending and no handle is reused |
| DecayTimer.Arm | src/components/ZxingScanner/index.jsx:85-97 | arming leaves exactly one pending handle, newer than all earlier ones and different from the one it replaced |
| DecayTimer.Fire | src/components/ZxingScanner/index.jsx:94-97 | a pending handle's clear empties the slot; any other handle changes nothing; afterwards the handle is not pending |
| DecayTimer.ArmSupersedesEarlierHandles | src/components/ZxingScanner/index.jsx:85-97 | after re-arming, no earlier handle can fire |
| DecayTimer.FireIsIdempotent | src/components/ZxingScanner/index.jsx:94-97 | a clear takes effect at most once |
| ScannerSession.RegionOf | src/components/ZxingScanner/index.jsx:86-93 | the stored region has points exactly when the decoder gave some, and records the frame size |
| ScannerSession.StartScanning | src/components/ZxingScanner/index.jsx:66-75 | with the video mounted: scanning with a reader and the error cleared, and no other field changes; otherwise nothing changes |
| ScannerSession.StartFailed | src/components/ZxingScanner/index.jsx:105-108 | scanning stops and the error shows the message, or the default text "Не удалось запустить камеру" when the message is empty; no other field changes |
| ScannerSession.OnDecode | src/components/ZxingScanner/index.jsx:79-103 | a result overwrites the text; with a known frame width it stores the region and re-arms the timer (cancel, then a fresh handle); the error changes exactly for an error other than NotFoundException and then holds its message; no other field changes |
| ScannerSession.StopScanning | src/components/ZxingScanner/index.jsx:111-118 | no reader and not scanning, from any state including one without a reader; nothing else changes |
| ScannerSession.SwitchCamera | src/components/ZxingScanner/index.jsx:176-180 | scanning stops, the reader is dropped, the text is cleared and the new camera is selected; region, error and timer are untouched; nothing else changes |
| ScannerSession.SelectionChanged | src/components/ZxingScanner/index.jsx:159-174 | the effect does nothing unless the selection differs from the one it last ran for; it then records the selection, and scanning starts (camera requested, error cleared) exactly when a camera is selected, the video is mounted and no reader is held; apart from the recorded selection, only the reader, scanning, error and camera-requested fields can change, and on a bail-out nothing else changes |
| ScannerSession.ResetScan | src/components/ZxingScanner/index.jsx:182-190 | text, region and error are cleared and the timer cancelled, while scanning and the selection carry on; nothing else changes |
| ScannerSession.TimerFired | src/components/ZxingScanner/index.jsx:94-97 | the pending clear removes the region and empties the slot, and nothing else changes; a stale handle changes nothing |
| ScannerSession.Teardown | src/components/ZxingScanner/index.jsx:141-148 | on unmount the timer is cancelled and the reader stopped; nothing else changes |
| ScannerSession.DevicesListed | src/components/ZxingScanner/index.jsx:120-128 | the camera list is replaced wholesale and nothing else changes |
| ScannerSession.StepKeepsInv | src/components/ZxingScanner/index.jsx:66-190 | every event keeps the invariant: a pending clear has a region to clear, stored regions have a known width and no empty point list, and scanning implies a reader |
| ScannerSession.RunKeepsInv | src/components/ZxingScanner/index.jsx:66-190 | the invariant holds after any sequence of events |
| ScannerSession.Initial | src/components/ZxingScanner/index.jsx:55-64 | the state after mounting has nothing scanned, no error, no devices or selection, no reader, nothing pending, and satisfies the invariant |
| ScannerSession.SecondResultSupersedesFirst | src/components/ZxingScanner/index.jsx:79-98 | after two results only the second text and region remain; the first clear cannot fire; the second clears the region once |
| ScannerSession.SwitchThenSelectionRestarts | src/components/ZxingScanner/index.jsx:159-180 | switching to a camera other than the one the effect last ran for, then running the effect, restarts scanning on it with text and error cleared |
| ScannerSession.SwitchToSelectedCameraStaysStopped | src/components/ZxingScanner/index.jsx:159-180 | switching to the already selected camera stops the reader, and the effect does not run again, so scanning stays stopped |
| QrLatch.HandleScan | src/components/Qr/index.jsx:8-12 | the data changes exactly when the scan has a text and nothing is stored, and then becomes that scan; stored data never changes |
| QrLatch.Refresh | src/components/Qr/index.jsx:14-16 | the data is empty afterwards, whatever it was |
| QrLatch.HandleError | src/components/Qr/index.jsx:18-20 | an error leaves the data unchanged |
| QrLatch.RunKeepsReachable | src/components/Qr/index.jsx:8-20 | any sequence of events keeps the property that stored data has a text |
| QrLatch.IframeSrc | src/components/Qr/index.jsx:35-37 | the frame is shown only for stored data, with its non-empty text as address, and always when stored data has a text |
| QrLatch.ScannerVisible | src/components/Qr/index.jsx:27-33 | the reader is never shown together with the result frame |
| QrLatch.ViewIsExclusive | src/components/Qr/index.jsx:27-37 | in reachable states, exactly one of the reader and the result frame is shown, and the frame shows the stored text |
| QrLatch.LatchHoldsUntilRefresh | src/components/Qr/index.jsx:8-12 | once data is stored, no sequence of scans and errors changes it |
| QrLatch.FirstTextualScanWins | src/components/Qr/index.jsx:8-12 | starting empty and without Refresh, the first scan that has a text is the one kept |

## Left out

- Camera acquisition and the decoding libraries (`decodeFromVideoDevice`, `listVideoInputDevices`, `reset`, `stopContinuousDecode`, the QR reader widget) are foreign calls. Decode results, errors, start failures and device lists are inputs to the transition functions. The format hints and the 150 ms spacing between scans only configure the library.
- React scheduling is concurrency timing and is not modelled: the effect order, the 200 ms and 50 ms mount delays and the `cancelled` flags (lines 131-174). Starting the reader is the `Start` and `Selection` events. The selection effect's own cleanup (`stopScanning` at line 172) is not a separate step: the selection changes only through `switchCamera`, which has already stopped the reader. The timer is a single pending slot with handles, not wall-clock time.
- A reader is only a held/not-held flag. The model does not track which reader a callback came from. A callback from a stopped reader cannot be told apart from a current one, because the code relies on the library to stop delivering after `reset`.
- The device id passed to `startScanning` goes only to the library and is not stored.
- Rendering and the DOM are left out: the resize listener, SVG output, device buttons and labels, hint texts and `console` logging. The display size (`offsetWidth || clientWidth`) and the frame size (`videoWidth`) are natural-number inputs. A missing video element is a zero size or `videoMounted = false`.
- `src/pages/index.jsx` is only a dynamic-import wrapper.
- Geometry is exact `real` arithmetic, not IEEE doubles. JavaScript truthiness of NaN or undefined sizes is not modelled; only zero counts as missing.
- Scan events on the Qr page carry only their text; a missing or falsy text is the empty string, and the event's other fields are not modelled.
