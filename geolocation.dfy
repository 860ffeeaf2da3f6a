/** The compass label of a wind bearing, `getWindDirection` of
    frontend/src/components/GeolocationComponent.tsx. */
module Geolocation {
  import opened Wrappers
  import Js

  /** The sixteen compass points, clockwise from north, 22.5 degrees apart. */
  const Compass: seq<string> := [
    "N", "NNE", "NE", "ENE", "E", "ESE", "SE", "SSE",
    "S", "SSW", "SW", "WSW", "W", "WNW", "NW", "NNW"
  ]

  /** `Math.round(degrees / 22.5) % 16`, with JavaScript's truncating remainder. */
  function Sector(degrees: real): (k: int)
    ensures -16 < k < 16
    ensures degrees >= -11.25 ==> 0 <= k
  {
    Js.Rem(Js.Round(degrees / 22.5), 16)
  }

  /** `directions[index]`: absent (`undefined`) when the index is negative, which happens
      only for bearings below -11.25 degrees. */
  function WindDirection(degrees: real): (r: Option<string>)
    ensures degrees >= -11.25 ==> r.Some?
    ensures r.Some? ==> r.value in Compass
    ensures r.Some? <==> Sector(degrees) >= 0
  {
    var k := Sector(degrees);
    if 0 <= k then Some(Compass[k]) else None
  }

  /** For a whole number of degrees the rounding is integer arithmetic: the sector is
      `((4 d + 45) div 90) mod 16`, so each label covers the bearings within 11.25 degrees
      of its own, the upper edge going to the next label. */
  lemma {:induction false} IntegerSector(d: int)
    requires d >= 0
    ensures Sector(d as real) == ((4 * d + 45) / 90) % 16
  {
    var q := (4 * d + 45) / 90;
    var x := d as real / 22.5;
    assert x == (4 * d) as real / 90.0;
    assert 90 * q <= 4 * d + 45 < 90 * q + 90;
    assert (90 * q) as real <= (4 * d + 45) as real < (90 * q + 90) as real;
    assert q as real - 0.5 <= x < q as real + 0.5;
    var r := Js.Round(x);
    assert r as real - 0.5 <= x < r as real + 0.5;
    assert r == q;
  }

  /** The sector of a whole bearing `d` with `4 d + 45` in the `q`-th block of 90. */
  lemma SectorIs(d: int, q: int)
    requires d >= 0 && 90 * q <= 4 * d + 45 < 90 * q + 90
    ensures Sector(d as real) == q % 16
  {
    IntegerSector(d);
    assert (4 * d + 45) / 90 == q;
  }

  /** The four cardinal bearings are N, E, S and W. */
  lemma Cardinals()
    ensures WindDirection(0.0) == Some("N")
    ensures WindDirection(90.0) == Some("E")
    ensures WindDirection(180.0) == Some("S")
    ensures WindDirection(270.0) == Some("W")
  {
    SectorIs(0, 0);
    SectorIs(90, 4);
    SectorIs(180, 8);
    SectorIs(270, 12);
  }

  /** North covers 0 to 11 degrees; 12 degrees is already north-north-east, because
      11.25 rounds up. */
  lemma NorthFromBelow(d: int)
    requires 0 <= d <= 12
    ensures d <= 11 ==> WindDirection(d as real) == Some("N")
    ensures d == 12 ==> WindDirection(d as real) == Some("NNE")
  {
    if d <= 11 {
      SectorIs(d, 0);
    } else {
      SectorIs(d, 1);
    }
  }

  /** Bearings from 349 to 360 degrees round to sector 16 and wrap round to north; 348 is
      still north-north-west. */
  lemma NorthWraps(d: int)
    requires 348 <= d <= 360
    ensures d >= 349 ==> WindDirection(d as real) == Some("N")
    ensures d == 348 ==> WindDirection(d as real) == Some("NNW")
  {
    if d >= 349 {
      SectorIs(d, 16);
    } else {
      SectorIs(d, 15);
    }
  }
}
