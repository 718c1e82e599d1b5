/** The cyclic colour palette assigned to route segments by index. */
module Palette {

  /** The six segment colours, in order. */
  const RouteColors: seq<string> := ["#1a73e8", "#ff7043", "#34a853", "#ab47bc", "#fbbc04", "#00acc1"]

  /**
   * The colour of segment `index`: the first colour for a negative index, otherwise the
   * palette entry `index mod 6`. The result is always one of the six colours.
   */
  function RouteColorAt(index: int): (color: string)
    ensures color in RouteColors
    ensures index < 0 ==> color == RouteColors[0]
  {
    if index < 0 then RouteColors[0] else RouteColors[index % |RouteColors|]
  }

  /** Colours repeat with period six for non-negative indices. */
  lemma RouteColorPeriodic(index: int)
    requires index >= 0
    ensures RouteColorAt(index + |RouteColors|) == RouteColorAt(index)
  {
    assert (index + 6) % 6 == index % 6;
  }

  /**
   * `Array.from({ length: count }, (_, i) => routeColorAt(i))`: `count` colours (none for a
   * negative count, since the length is clamped at zero), entry `i` being segment `i`'s colour.
   */
  function GetRouteColors(count: int): (colors: seq<string>)
    ensures |colors| == if count < 0 then 0 else count
    ensures forall i :: 0 <= i < |colors| ==> colors[i] == RouteColorAt(i)
    ensures forall i :: 0 <= i < |colors| ==> colors[i] == RouteColors[i % |RouteColors|]
  {
    if count <= 0 then [] else seq(count, i => RouteColorAt(i))
  }
}
