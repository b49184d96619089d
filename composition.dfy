/**
 * The parsed animation: frame range, frame rate, layers by id, image assets
 * and named markers. Everything `init` sets is fixed afterwards; only the
 * mask-and-matte counter changes.
 */
module Composition {
  import opened Wrappers
  import opened JavaNum
  import ImageAssets

  /** A layer model, known here only by an opaque handle. */
  type LayerRef = nat

  /** A named frame span of the animation. */
  datatype Marker = Marker(name: string, startFrame: real, durationFrames: real)

  /** Matching a marker against a requested name. */
  predicate MatchesName(m: Marker, name: string)
  {
    m.name == name
  }

  /** The index of the first marker that matches the name, if any. */
  function FindMarker(markers: seq<Marker>, name: string): (r: Option<nat>)
    ensures r.Some? ==> r.value < |markers| && MatchesName(markers[r.value], name)
    ensures r.Some? ==> forall j :: 0 <= j < r.value ==> !MatchesName(markers[j], name)
    ensures r.None? ==> forall j :: 0 <= j < |markers| ==> !MatchesName(markers[j], name)
    decreases |markers|
  {
    if |markers| == 0 then None
    else if MatchesName(markers[0], name) then Some(0)
    else match FindMarker(markers[1..], name)
      case None => None
      case Some(k) => Some(k + 1)
  }

  class LottieComposition {
    const bounds: (int, int, int, int)
    const startFrame: real
    const endFrame: real
    const frameRate: real
    const layers: seq<LayerRef>
    const layerMap: map<int, LayerRef>
    const images: map<string, ImageAssets.LottieImageAsset>
    const markers: seq<Marker>
    var maskAndMatteCount: int
    var hasDashPattern: bool

    /** `new LottieComposition()` followed by `init`: every argument is stored as given. */
    constructor (bounds: (int, int, int, int), startFrame: real, endFrame: real, frameRate: real,
                 layers: seq<LayerRef>, layerMap: map<int, LayerRef>,
                 images: map<string, ImageAssets.LottieImageAsset>, markers: seq<Marker>)
      ensures this.bounds == bounds && this.startFrame == startFrame && this.endFrame == endFrame
      ensures this.frameRate == frameRate && this.layers == layers && this.layerMap == layerMap
      ensures this.images == images && this.markers == markers
      ensures maskAndMatteCount == 0 && !hasDashPattern
    {
      this.bounds, this.startFrame, this.endFrame, this.frameRate := bounds, startFrame, endFrame, frameRate;
      this.layers, this.layerMap, this.images, this.markers := layers, layerMap, images, markers;
      maskAndMatteCount := 0;
      hasDashPattern := false;
    }

    /** The length of the animation in frames. */
    function DurationFrames(): (r: real)
      ensures startFrame + r == endFrame
    {
      endFrame - startFrame
    }

    /**
     * The length in milliseconds: frames over rate, times 1000, cast to long
     * (and widened back to float); a zero rate gives an infinite or NaN
     * quotient, which the cast turns into the long range's end or 0.
     */
    function Duration(): (r: int)
      ensures frameRate != 0.0 ==> r == SaturateLong(Trunc(DurationFrames() / frameRate * 1000.0))
      ensures frameRate != 0.0 && DurationFrames() >= 0.0 && frameRate > 0.0 ==> r >= 0
      ensures frameRate == 0.0 && DurationFrames() > 0.0 ==> r == LONG_MAX
      ensures frameRate == 0.0 && DurationFrames() < 0.0 ==> r == LONG_MIN
      ensures frameRate == 0.0 && DurationFrames() == 0.0 ==> r == 0
    {
      match Div(DurationFrames(), frameRate)
      case Num(q) => SaturateLong(Trunc(q * 1000.0))
      case PosInf => LONG_MAX
      case NegInf => LONG_MIN
      case NaN => 0
    }

    /** The layer model registered under the id, or none. */
    function LayerModelForId(id: int): (r: Option<LayerRef>)
      ensures r.Some? <==> id in layerMap
      ensures r.Some? ==> r.value == layerMap[id]
    {
      if id in layerMap then Some(layerMap[id]) else None
    }

    predicate HasImages()
      ensures HasImages() <==> images != map[]
    {
      |images| != 0
    }

    /** The warnings recorded so far; `addWarning` only logs, so there are none. */
    function Warnings(): (r: seq<string>)
      ensures |r| == 0
    {
      []
    }

    /** Logs a warning without recording it. */
    method AddWarning(warning: string)
      ensures Warnings() == []
    {
    }

    method IncrementMatteOrMaskCount(amount: int)
      modifies this`maskAndMatteCount
      ensures maskAndMatteCount == old(maskAndMatteCount) + amount
    {
      maskAndMatteCount := maskAndMatteCount + amount;
    }

    method SetHasDashPattern(b: bool)
      modifies this`hasDashPattern
      ensures hasDashPattern == b
    {
      hasDashPattern := b;
    }

    /** The first marker whose name matches, or none; a linear scan. */
    method GetMarker(name: string) returns (r: Option<Marker>)
      ensures r.Some? <==> exists j :: 0 <= j < |markers| && MatchesName(markers[j], name)
      ensures r.Some? ==> MatchesName(r.value, name) && r.value in markers
      ensures r == (match FindMarker(markers, name) case None => None case Some(k) => Some(markers[k]))
    {
      var i := 0;
      while i < |markers|
        invariant 0 <= i <= |markers|
        invariant forall j :: 0 <= j < i ==> !MatchesName(markers[j], name)
      {
        if MatchesName(markers[i], name) {
          FindMarkerFirst(markers, name, i);
          return Some(markers[i]);
        }
        i := i + 1;
      }
      return None;
    }
  }

  /** A matching index with no match before it is what FindMarker finds. */
  lemma {:induction false} FindMarkerFirst(markers: seq<Marker>, name: string, i: nat)
    requires i < |markers| && MatchesName(markers[i], name)
    requires forall j :: 0 <= j < i ==> !MatchesName(markers[j], name)
    ensures FindMarker(markers, name) == Some(i)
    decreases i
  {
    if i > 0 {
      FindMarkerFirst(markers[1..], name, i - 1);
    }
  }
}
