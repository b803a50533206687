/** The `LocationManager` of the CrosswalkGuardian app: on every location fix it looks
    for the first listed crosswalk within `alertDistance`, sends one notification per
    crosswalk it approaches, and forgets that crosswalk only once the user is more
    than twice `alertDistance` away from it. */
module CrosswalkGuardian {
  import opened Geo

  /** `alertDistance`: a crosswalk at most this many meters away is near. */
  const AlertDistance: real := 25.0

  /** Two crosswalk locations less than this many meters apart count as the same crosswalk. */
  const SameCrosswalkDistance: real := 1.0

  /** The texts `statusMessage` takes in the proximity rule, as named values. */
  datatype StatusMessage = MonitoringMessage | ApproachingMessage | AllClearMessage | FailedMessage
  {
    /** The text shown on screen. */
    function Text(): string
    {
      match this
      case MonitoringMessage => "Monitoring for crosswalks..."
      case ApproachingMessage => "Approaching crosswalk! Be alert."
      case AllClearMessage => "All clear. Monitoring..."
      case FailedMessage => "Failed to get location."
    }
  }

  /** A map annotation; its `UUID` identity plays no part in the proximity rule. */
  datatype CrosswalkLocation = CrosswalkLocation(name: string, coordinate: Coord)

  /** The hardcoded crosswalk list the manager starts with. */
  const Crosswalks: seq<CrosswalkLocation> :=
    [CrosswalkLocation("Georgia Ave", Coord(38.920959, -77.022056))]

  predicate IsNear(dist: Distance, user: Coord, c: CrosswalkLocation)
  {
    dist(user, c.coordinate) <= AlertDistance
  }

  /** The crosswalk the scan acts on: the first one in list order that is near. */
  function FirstNear(dist: Distance, user: Coord, cws: seq<CrosswalkLocation>): (r: Option<nat>)
    ensures r.Some? ==> r.value < |cws| && IsNear(dist, user, cws[r.value])
    ensures r.Some? ==> forall j :: 0 <= j < r.value ==> !IsNear(dist, user, cws[j])
    ensures r.None? <==> forall j :: 0 <= j < |cws| ==> !IsNear(dist, user, cws[j])
  {
    FirstMatch(cws, c => IsNear(dist, user, c))
  }

  /** `lastNotifiedCrosswalk` is set and lies within a meter of `c`. */
  predicate AlreadyNotified(dist: Distance, last: Option<Coord>, c: Coord)
  {
    last.Some? && dist(last.value, c) < SameCrosswalkDistance
  }

  /** `lastNotifiedCrosswalk` is set and the user is more than `2 * alertDistance` from it. */
  predicate FarFromLast(dist: Distance, user: Coord, last: Option<Coord>)
  {
    last.Some? && dist(user, last.value) > AlertDistance * 2.0
  }

  /** The fields a proximity check reads and writes. */
  datatype Monitor = Monitor(lastNotified: Option<Coord>, isNear: bool, status: StatusMessage)

  /** The state after one proximity check, and the crosswalks notified about during it. */
  datatype Update = Update(next: Monitor, sent: seq<Coord>)

  predicate Listed(cws: seq<CrosswalkLocation>, c: Coord)
  {
    exists i :: 0 <= i < |cws| && cws[i].coordinate == c
  }

  /** One run of `checkProximityToCrosswalks` on the fix `user`, with the deferred
      writes of `statusMessage` and `isNearCrosswalk` applied at its end. */
  function Check(dist: Distance, cws: seq<CrosswalkLocation>, m: Monitor, user: Coord): (u: Update)
    ensures u.next.isNear <==> exists i :: 0 <= i < |cws| && IsNear(dist, user, cws[i])
    ensures u.next.status == if u.next.isNear then ApproachingMessage else AllClearMessage
    ensures |u.sent| <= 1
    ensures u.sent != [] ==> u.next.isNear && u.next.lastNotified == Some(u.sent[0])
    ensures u.sent != [] ==> exists i :: 0 <= i < |cws| && IsNear(dist, user, cws[i]) && cws[i].coordinate == u.sent[0]
  {
    match FirstNear(dist, user, cws)
    case Some(i) =>
      var c := cws[i].coordinate;
      if AlreadyNotified(dist, m.lastNotified, c) then
        Update(Monitor(m.lastNotified, true, ApproachingMessage), [])
      else
        Update(Monitor(Some(c), true, ApproachingMessage), [c])
    case None =>
      var last := if FarFromLast(dist, user, m.lastNotified) then None else m.lastNotified;
      Update(Monitor(last, false, AllClearMessage), [])
  }

  /** When crosswalk `i` is the first near one, it alone is acted on: the user is near,
      a notification is sent iff no crosswalk within a meter of it was notified last,
      and after sending it is the remembered crosswalk. */
  lemma NearCrosswalkIsActedOn(dist: Distance, cws: seq<CrosswalkLocation>, m: Monitor, user: Coord, i: nat)
    requires i < |cws| && IsNear(dist, user, cws[i])
    requires forall j :: 0 <= j < i ==> !IsNear(dist, user, cws[j])
    ensures var u := Check(dist, cws, m, user);
      && u.next.isNear && u.next.status == ApproachingMessage
      && (u.sent != [] <==> !AlreadyNotified(dist, m.lastNotified, cws[i].coordinate))
      && (u.sent != [] ==> u.sent == [cws[i].coordinate] && u.next.lastNotified == Some(cws[i].coordinate))
      && (u.sent == [] ==> u.next.lastNotified == m.lastNotified)
  {
  }

  /** With no crosswalk near, nothing is sent, the status is all clear, and the
      remembered crosswalk is dropped only when the user is far from it. */
  lemma NoCrosswalkNear(dist: Distance, cws: seq<CrosswalkLocation>, m: Monitor, user: Coord)
    requires forall j :: 0 <= j < |cws| ==> !IsNear(dist, user, cws[j])
    ensures var u := Check(dist, cws, m, user);
      && u.sent == [] && !u.next.isNear && u.next.status == AllClearMessage
      && u.next.lastNotified == if FarFromLast(dist, user, m.lastNotified) then None else m.lastNotified
  {
  }

  /** The remembered crosswalk changes only by being dropped while no crosswalk is near
      and the user is far from it, or by being replaced by the near crosswalk just
      notified about. */
  lemma RememberedCrosswalkChangesOnlyThus(dist: Distance, cws: seq<CrosswalkLocation>, m: Monitor, user: Coord)
    ensures var u := Check(dist, cws, m, user);
      || u.next.lastNotified == m.lastNotified
      || (u.next.lastNotified == None && FarFromLast(dist, user, m.lastNotified)
          && forall j :: 0 <= j < |cws| ==> !IsNear(dist, user, cws[j]))
      || (u.sent != [] && u.next.lastNotified == Some(u.sent[0]))
  {
  }

  /** Two consecutive updates at the same position send at most one notification,
      provided the distance from a crosswalk to itself is under a meter. */
  lemma RepeatedFixNotifiesOnce(dist: Distance, cws: seq<CrosswalkLocation>, m: Monitor, user: Coord)
    requires forall j :: 0 <= j < |cws| ==> dist(cws[j].coordinate, cws[j].coordinate) < SameCrosswalkDistance
    ensures Check(dist, cws, Check(dist, cws, m, user).next, user).sent == []
  {
  }

  /** The remembered crosswalk is always one of the listed crosswalks. */
  lemma RememberedCrosswalkIsListed(dist: Distance, cws: seq<CrosswalkLocation>, m: Monitor, user: Coord)
    requires m.lastNotified.Some? ==> Listed(cws, m.lastNotified.value)
    ensures var u := Check(dist, cws, m, user);
      u.next.lastNotified.Some? ==> Listed(cws, u.next.lastNotified.value)
  {
  }

  /** The updates for a stream of fixes, one after the other: the state and the
      notification log that a sequence of `DidUpdateLocations` calls, each with a
      one-fix batch, reaches from `m`. */
  function Run(dist: Distance, cws: seq<CrosswalkLocation>, m: Monitor, fixes: seq<Coord>): (u: Update)
    ensures |u.sent| <= |fixes|
    ensures forall k :: 0 <= k < |u.sent| ==> Listed(cws, u.sent[k])
    decreases |fixes|
  {
    if fixes == [] then Update(m, [])
    else
      var first := Check(dist, cws, m, fixes[0]);
      var rest := Run(dist, cws, first.next, fixes[1..]);
      Update(rest.next, first.sent + rest.sent)
  }

  /** Hysteresis at the app's single crosswalk: a user who never strays more than
      `2 * alertDistance` from it is notified at most once, and not at all once it is
      the remembered crosswalk. */
  lemma {:induction false} StayingCloseNotifiesAtMostOnce(dist: Distance, cw: CrosswalkLocation, m: Monitor, fixes: seq<Coord>)
    requires dist(cw.coordinate, cw.coordinate) < SameCrosswalkDistance
    requires forall k :: 0 <= k < |fixes| ==> dist(fixes[k], cw.coordinate) <= AlertDistance * 2.0
    ensures |Run(dist, [cw], m, fixes).sent| <= 1
    ensures m.lastNotified == Some(cw.coordinate) ==> Run(dist, [cw], m, fixes).sent == []
    decreases |fixes|
  {
    if fixes != [] {
      var first := Check(dist, [cw], m, fixes[0]);
      StayingCloseNotifiesAtMostOnce(dist, cw, first.next, fixes[1..]);
      if first.sent != [] {
        assert first.next.lastNotified == Some(cw.coordinate);
      }
      if m.lastNotified == Some(cw.coordinate) {
        assert first.next.lastNotified == m.lastNotified;
      }
    }
  }

  /** The app's `LocationManager`, restricted to the state its proximity rule uses. */
  class LocationManager {
    var crosswalks: seq<CrosswalkLocation>
    var userLocation: Option<Coord>
    var statusMessage: StatusMessage
    var isNearCrosswalk: bool
    var lastNotifiedCrosswalk: Option<Coord>
    /** The crosswalk behind each `sendProximityNotification` call, oldest first. */
    ghost var notifications: seq<Coord>

    function State(): Monitor
      reads this
    {
      Monitor(lastNotifiedCrosswalk, isNearCrosswalk, statusMessage)
    }

    constructor ()
      ensures crosswalks == Crosswalks && userLocation == None
      ensures State() == Monitor(None, false, MonitoringMessage) && notifications == []
    {
      crosswalks := Crosswalks;
      userLocation := None;
      statusMessage := MonitoringMessage;
      isNearCrosswalk := false;
      lastNotifiedCrosswalk := None;
      notifications := [];
    }

    /** `checkProximityToCrosswalks(userLocation:)` */
    method CheckProximityToCrosswalks(user: Coord, dist: Distance)
      modifies this`lastNotifiedCrosswalk, this`isNearCrosswalk, this`statusMessage, this`notifications
      ensures State() == Check(dist, crosswalks, old(State()), user).next
      ensures notifications == old(notifications) + Check(dist, crosswalks, old(State()), user).sent
      ensures crosswalks == old(crosswalks) && userLocation == old(userLocation)
    {
      ghost var m := State();
      var foundNearby := false;
      for i := 0 to |crosswalks|
        invariant forall j :: 0 <= j < i ==> !IsNear(dist, user, crosswalks[j])
        invariant lastNotifiedCrosswalk == m.lastNotified && notifications == old(notifications)
        invariant isNearCrosswalk == m.isNear && statusMessage == m.status
        invariant !foundNearby
      {
        var crosswalkLocation := crosswalks[i].coordinate;
        var distance := dist(user, crosswalkLocation);
        if distance <= AlertDistance {
          NearCrosswalkIsActedOn(dist, crosswalks, m, user, i);
          if !AlreadyNotified(dist, lastNotifiedCrosswalk, crosswalkLocation) {
            notifications := notifications + [crosswalkLocation];  // sendProximityNotification()
            lastNotifiedCrosswalk := Some(crosswalkLocation);
          }
          // deferred to the main queue; nothing reads them before the update ends
          statusMessage := ApproachingMessage;
          isNearCrosswalk := true;
          foundNearby := true;
          break;
        }
      }
      if !foundNearby {
        NoCrosswalkNear(dist, crosswalks, m, user);
        if FarFromLast(dist, user, lastNotifiedCrosswalk) {
          lastNotifiedCrosswalk := None;
        }
        statusMessage := AllClearMessage;
        isNearCrosswalk := false;
      }
    }

    /** `locationManager(_:didUpdateLocations:)`: the first fix of the batch becomes
        `userLocation` and is checked; an empty batch is ignored. */
    method DidUpdateLocations(locations: seq<Coord>, dist: Distance)
      modifies this`userLocation, this`lastNotifiedCrosswalk, this`isNearCrosswalk, this`statusMessage, this`notifications
      ensures crosswalks == old(crosswalks)
      ensures locations == [] ==>
        userLocation == old(userLocation) && State() == old(State()) && notifications == old(notifications)
      ensures locations != [] ==>
        && userLocation == Some(locations[0])
        && State() == Check(dist, crosswalks, old(State()), locations[0]).next
        && notifications == old(notifications) + Check(dist, crosswalks, old(State()), locations[0]).sent
    {
      if locations == [] {
        return;
      }
      var latestLocation := locations[0];
      userLocation := Some(latestLocation);
      CheckProximityToCrosswalks(latestLocation, dist);
    }

    /** `locationManager(_:didFailWithError:)`: only the status line changes. */
    method DidFailWithError()
      modifies this`statusMessage
      ensures statusMessage == FailedMessage
      ensures lastNotifiedCrosswalk == old(lastNotifiedCrosswalk) && isNearCrosswalk == old(isNearCrosswalk)
    {
      statusMessage := FailedMessage;
    }
  }
}
