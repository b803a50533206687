/** Coordinates, the distance oracle and the in-order scan that both PedAlert apps
    run over their hardcoded crosswalk lists. */
module Geo {

  /** A `CLLocationCoordinate2D`: latitude and longitude in degrees. */
  datatype Coord = Coord(latitude: real, longitude: real)

  /** `dist(a, b)` stands for `a.distance(from: b)` in meters. CoreLocation's geodesic
      computation is foreign code, so every operation takes it as a parameter and no
      property relies on anything about it that is not stated as a precondition. */
  type Distance = (Coord, Coord) -> real

  datatype Option<T> = None | Some(value: T)

  /** The index at which a `for` loop over `s` that stops at the first element
      satisfying `p` stops, or `None` when the loop runs to the end. */
  function FirstMatch<T>(s: seq<T>, p: T -> bool): (r: Option<nat>)
    ensures r.Some? ==> r.value < |s| && p(s[r.value])
    ensures r.Some? ==> forall j :: 0 <= j < r.value ==> !p(s[j])
    ensures r.None? <==> forall j :: 0 <= j < |s| ==> !p(s[j])
  {
    if s == [] then None
    else if p(s[0]) then Some(0)
    else match FirstMatch(s[1..], p)
      case None => None
      case Some(k) => Some(k + 1)
  }

  /** The first match is the only index that satisfies `p` with no match before it. */
  lemma FirstMatchIsUnique<T>(s: seq<T>, p: T -> bool, i: nat)
    requires i < |s| && p(s[i])
    requires forall j :: 0 <= j < i ==> !p(s[j])
    ensures FirstMatch(s, p) == Some(i)
  {
  }
}
