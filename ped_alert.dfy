/** The PedAlert app's `ContentView`: each new location recentres the map on the user
    and raises the "on a crosswalk" alert iff some listed crosswalk is strictly closer
    than 20 meters. */
module PedAlert {
  import opened Geo

  /** A crosswalk strictly closer than this many meters raises the alert. */
  const AlertRadius: real := 20.0

  /** A map annotation; its `UUID` identity plays no part in the alert rule. */
  datatype IdentifiableLocation = IdentifiableLocation(coordinate: Coord)

  /** An `MKCoordinateSpan`. */
  datatype Span = Span(latitudeDelta: real, longitudeDelta: real)

  /** An `MKCoordinateRegion`: the part of the map on screen. */
  datatype Region = Region(center: Coord, span: Span)

  /** The region on Georgia Ave NW the map opens on. */
  const InitialRegion: Region := Region(Coord(38.9215, -77.0220), Span(0.003, 0.003))

  /** The crosswalks near Howard University, in scan order. */
  const Crosswalks: seq<IdentifiableLocation> := [
    IdentifiableLocation(Coord(38.922639, -77.019278)),
    IdentifiableLocation(Coord(38.922750, -77.019400)),
    IdentifiableLocation(Coord(38.922520, -77.019100)),
    IdentifiableLocation(Coord(38.922630, -77.019000)),
    IdentifiableLocation(Coord(38.922480, -77.019300)),
    IdentifiableLocation(Coord(38.921028, -77.022083)),
    IdentifiableLocation(Coord(38.920972, -77.022194)),
    IdentifiableLocation(Coord(38.920889, -77.021944))
  ]

  predicate OnCrosswalk(dist: Distance, user: Coord, c: IdentifiableLocation)
  {
    dist(user, c.coordinate) < AlertRadius
  }

  /** Where the scan returns early: the first crosswalk in list order under the radius. */
  function FirstCrosswalkUnder(dist: Distance, user: Coord, cws: seq<IdentifiableLocation>): (r: Option<nat>)
    ensures r.Some? ==> r.value < |cws| && OnCrosswalk(dist, user, cws[r.value])
    ensures r.Some? ==> forall j :: 0 <= j < r.value ==> !OnCrosswalk(dist, user, cws[j])
    ensures r.None? <==> forall j :: 0 <= j < |cws| ==> !OnCrosswalk(dist, user, cws[j])
  {
    FirstMatch(cws, c => OnCrosswalk(dist, user, c))
  }

  /** The value the scan leaves in `showAlert`. */
  function ShouldAlert(dist: Distance, user: Coord, cws: seq<IdentifiableLocation>): (r: bool)
    ensures r <==> exists i :: 0 <= i < |cws| && dist(user, cws[i].coordinate) < AlertRadius
  {
    FirstCrosswalkUnder(dist, user, cws).Some?
  }

  /** The radius is strict: when no crosswalk is closer than 20 meters, one at exactly
      20 meters does not raise the alert. */
  lemma AlertRadiusIsStrict(dist: Distance, user: Coord, cws: seq<IdentifiableLocation>, i: nat)
    requires i < |cws| && dist(user, cws[i].coordinate) == AlertRadius
    requires forall j :: 0 <= j < |cws| ==> dist(user, cws[j].coordinate) >= AlertRadius
    ensures !ShouldAlert(dist, user, cws)
  {
  }

  /** The view state the location handler reads and writes. */
  class ContentView {
    const crosswalks: seq<IdentifiableLocation>
    var region: Region
    var showAlert: bool

    constructor ()
      ensures crosswalks == Crosswalks && |crosswalks| == 8
      ensures region == InitialRegion && !showAlert
    {
      crosswalks := Crosswalks;
      region := InitialRegion;
      showAlert := false;
    }

    /** The `.onChange(of: locationManager.location)` handler. `examined` counts the
        crosswalks whose distance it computes before it stops. */
    method OnChangeOfLocation(newLocation: Option<Coord>, dist: Distance) returns (ghost examined: nat)
      modifies this`region, this`showAlert
      ensures newLocation.None? ==> region == old(region) && showAlert == old(showAlert)
      ensures newLocation.Some? ==>
        && region == Region(newLocation.value, old(region).span)
        && showAlert == ShouldAlert(dist, newLocation.value, crosswalks)
        && examined == match FirstCrosswalkUnder(dist, newLocation.value, crosswalks)
                       case Some(i) => i + 1
                       case None => |crosswalks|
    {
      examined := 0;
      if newLocation.None? {
        return;
      }
      var userLoc := newLocation.value;
      region := region.(center := userLoc);
      for i := 0 to |crosswalks|
        invariant forall j :: 0 <= j < i ==> !OnCrosswalk(dist, userLoc, crosswalks[j])
        invariant examined == i
      {
        var crosswalkLoc := crosswalks[i].coordinate;
        examined := examined + 1;
        if dist(userLoc, crosswalkLoc) < AlertRadius {
          FirstMatchIsUnique(crosswalks, c => OnCrosswalk(dist, userLoc, c), i);
          showAlert := true;
          return;
        }
      }
      showAlert := false;
    }
  }
}
