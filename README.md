# PedAlert proximity rules in Dafny

PedAlert has two near-duplicate iOS apps. Each shows a map, tracks the user's
position and warns when the user comes close to one of a few hardcoded
crosswalks. This project models the one piece of logic the apps contain: the rule
each one applies to every location fix.

- `CrosswalkGuardian` (`crosswalk_guardian.dfy`) models the `LocationManager` of
  the `PedAlert_Gemini` app. On each fix it scans the crosswalk list in order. It
  acts on the first crosswalk at most `alertDistance` (25 m, inclusive) away. It
  sends a notification unless the crosswalk notified last lies within 1 m of that
  crosswalk, and then remembers it. When no crosswalk is near, it forgets the
  remembered crosswalk only once the user is more than `2 * alertDistance`
  (50 m) from it. That gap between 25 m and 50 m is the hysteresis that keeps
  the app from re-alerting. The class `LocationManager` keeps the source's
  fields and updates them in place. The function `Check` specifies one update,
  and `Run` specifies a stream of fixes.
- `PedAlert` (`ped_alert.dfy`) models the `ContentView` of the `PedAlert` app.
  When a new location arrives, the handler recentres the map region on it. It
  then sets `showAlert` to true iff some crosswalk is strictly closer than 20 m,
  stopping at the first such crosswalk.
- `Geo` (`geo.dfy`) holds what both apps share: coordinates, the distance
  oracle and the in-order scan with an early exit (`FirstMatch`).

`CLLocation.distance(from:)` is foreign code. Every operation therefore takes it
as a parameter `dist: (Coord, Coord) -> real`, where `dist(a, b)` means
`a.distance(from: b)`. The argument order follows the source at each call site.
A property that needs a fact about `dist` states it as a precondition. The
properties about repeated fixes assume `dist(c, c) < 1` for the crosswalks
involved. Sending a notification is modelled by appending the crosswalk's
coordinate to the ghost log `LocationManager.notifications`. `statusMessage` only
ever holds one of a few fixed texts. It is modelled as the enumeration
`StatusMessage`, whose `Text()` gives the exact string shown on screen.

The two apps are deliberately not unified. The Gemini app uses `<=` against
25 m and reads `locations.first`. The other app uses a strict `<` against 20 m,
and its location wrapper keeps `locations.last`.

## Model

| member | source | states |
|---|---|---|
| `Geo.FirstMatch` | PedAlert_Gemini/ContentView.swift:169-187 | the scan stops at an element that matches, every element before it fails to match, and the scan finds nothing iff no element matches |
| `CrosswalkGuardian.FirstNear` | PedAlert_Gemini/ContentView.swift:169-173 | the crosswalk acted on is within 25 m (inclusive), and no earlier crosswalk in the list is; there is none iff no crosswalk is within 25 m |
| `CrosswalkGuardian.Check` | PedAlert_Gemini/ContentView.swift:167-200 | after an update `isNearCrosswalk` holds iff some crosswalk is within 25 m; the status message matches it; at most one notification is sent, only while near, and only about a listed crosswalk that is within 25 m and then becomes the remembered crosswalk |
| `CrosswalkGuardian.NearCrosswalkIsActedOn` | PedAlert_Gemini/ContentView.swift:169-186 | when crosswalk i is the first near one: near and "Approaching crosswalk! Be alert."; a notification is sent iff the remembered crosswalk is nil or at least 1 m from i; after sending it is i, otherwise it is unchanged |
| `CrosswalkGuardian.NoCrosswalkNear` | PedAlert_Gemini/ContentView.swift:190-198 | with no crosswalk within 25 m: no notification, not near, "All clear. Monitoring...", and the remembered crosswalk becomes nil iff it is more than 50 m from the user |
| `CrosswalkGuardian.RememberedCrosswalkChangesOnlyThus` | PedAlert_Gemini/ContentView.swift:174-193 | the remembered crosswalk either stays, or becomes nil while no crosswalk is near and the user is more than 50 m from it, or becomes the crosswalk just notified about |
| `CrosswalkGuardian.RepeatedFixNotifiesOnce` | PedAlert_Gemini/ContentView.swift:173-178 | if every crosswalk is under 1 m from itself, a second update at the same position sends no notification, so two updates send at most one |
| `CrosswalkGuardian.RememberedCrosswalkIsListed` | PedAlert_Gemini/ContentView.swift:170-178 | if the remembered crosswalk is nil or one of the listed crosswalks, that still holds after an update |
| `CrosswalkGuardian.Run` | PedAlert_Gemini/ContentView.swift:148-154 | a stream of fixes sends at most one notification per fix, and each one about a listed crosswalk |
| `CrosswalkGuardian.StayingCloseNotifiesAtMostOnce` | PedAlert_Gemini/ContentView.swift:173-193 | with the app's single crosswalk, a user who never goes more than 50 m from it gets at most one notification, and none once it is the remembered crosswalk |
| `CrosswalkGuardian.LocationManager.constructor` | PedAlert_Gemini/ContentView.swift:100-111 | the manager starts with the Georgia Ave crosswalk, no user location, "Monitoring for crosswalks...", not near, nothing remembered and nothing sent |
| `CrosswalkGuardian.LocationManager.CheckProximityToCrosswalks` | PedAlert_Gemini/ContentView.swift:167-200 | the for-loop with its break leaves the fields as `Check` says and logs exactly the notifications `Check` sends; the crosswalk list and `userLocation` are not touched |
| `CrosswalkGuardian.LocationManager.DidUpdateLocations` | PedAlert_Gemini/ContentView.swift:148-154 | an empty batch changes nothing; otherwise `userLocation` becomes the batch's first fix and the proximity check runs on it; the crosswalk list is never modified |
| `CrosswalkGuardian.LocationManager.DidFailWithError` | PedAlert_Gemini/ContentView.swift:160-165 | a location failure sets the status to "Failed to get location." and leaves the proximity state alone |
| `PedAlert.FirstCrosswalkUnder` | PedAlert/ContentView.swift:57-62 | the early return happens at a crosswalk strictly under 20 m, with every earlier crosswalk at 20 m or more; there is none iff no crosswalk is under 20 m |
| `PedAlert.ShouldAlert` | PedAlert/ContentView.swift:57-65 | the alert is raised iff some crosswalk is strictly closer than 20 m |
| `PedAlert.AlertRadiusIsStrict` | PedAlert/ContentView.swift:59 | a crosswalk at exactly 20 m, with none closer, does not raise the alert |
| `PedAlert.ContentView.constructor` | PedAlert/ContentView.swift:8-26 | the view starts with the alert hidden, the Georgia Ave region and the fixed list of exactly 8 crosswalks |
| `PedAlert.ContentView.OnChangeOfLocation` | PedAlert/ContentView.swift:50-66 | a nil location changes nothing; otherwise the region is centred on the user with its span unchanged, `showAlert` is `ShouldAlert`, and the scan examines crosswalks up to the first match, or all of them when there is none |

## Left out

- SwiftUI view bodies, map markers, the camera animation that follows `userLocation`, and the alert's OK button that hides it again. They are UI.
- `setupAndRequestPermissions`, `requestNotificationPermission` and `locationManagerDidChangeAuthorization`, with `authorizationStatus` and the `fatalError` branch. They are OS permission plumbing. As a result the constructor's state ignores the status message that permission setup may write.
- The body of `sendProximityNotification`. It is a UserNotifications call, modelled only as an entry in the ghost log.
- How `CLLocation.distance(from:)` computes distances. It is a foreign geodesic computation, kept abstract as the `dist` parameter.
- `DispatchQueue.main.async` scheduling. Threads are not modelled. The deferred writes to `statusMessage` and `isNearCrosswalk` take effect during the update, in program order. Nothing in the update reads them, so this is the same as applying them at its end. The model does not capture how these writes interleave with `didFailWithError`, whose status write is deferred too. If a failure is reported right after a fix, the app runs the fix's block, then the failure's write, then the proximity status write that the fix's block queued, so it ends with the proximity status. The model ends with "Failed to get location.".
- `Double` arithmetic. Distances and coordinates are exact reals, so rounding at the 25 m, 50 m, 1 m and 20 m thresholds is not captured.
- The crosswalks' `UUID` identities and the other fields of `CLLocation` (altitude, accuracy, timestamp). The rules never read them.
- `RealLocationManager`, which stores `locations.last`, and the onboarding views `WelcomeView` and `RootView`. They are a location-service wrapper and UI. The `PedAlert` handler receives the new location directly as an optional coordinate.
- There is no exit event: forgetting the remembered crosswalk sends nothing. The 1 m same-crosswalk test and the 2x forgetting distance are fixed constants, and location fixes are not validated.
- `CrosswalkGuardian.StayingCloseNotifiesAtMostOnce` is stated for a one-crosswalk list, as the app ships. With several crosswalks, a user near two of them in turn is notified about each.
