/**
 * What the fill and stroke contents share: the callback animation a
 * COLOR_FILTER or GRADIENT_COLOR value callback installs on the layer, the
 * calls a content makes on the animations and trim paths it listens to,
 * the path contents it collects in `setContents`, and the paint alpha.
 */
module PaintContents {
  import opened Wrappers
  import opened JavaNum
  import opened Geometry
  import opened Matrices
  import opened Contents
  import L = Layers

  /** An animation whose only values are those of a value callback. */
  class CallbackAnimation {
    const callback: object

    constructor (callback: object)
      ensures this.callback == callback
    {
      this.callback := callback;
    }
  }

  /** A gradient shader: the colours at the given stop positions, along a line or around a centre. */
  datatype Shader =
    | LinearShader(start: Point, end: Point, positions: seq<real>, colors: seq<Option<int>>)
    | RadialShader(center: Point, radius: real, positions: seq<real>, colors: seq<Option<int>>)

  /** A call a content makes on something it does not own. */
  datatype PaintCall =
    | ListenTo(animation: L.Animation)
    | ListenToTrim(trim: Content)
    | SetCallbackOf(animation: L.Animation, callback: object?)
    | Invalidate

  /** The content subscribes to each animation, in order. */
  function ListenToEach(anims: seq<L.Animation>): (r: seq<PaintCall>)
    ensures |r| == |anims|
    ensures forall i :: 0 <= i < |anims| ==> r[i] == ListenTo(anims[i])
  {
    if anims == [] then [] else ListenToEach(anims[..|anims| - 1]) + [ListenTo(anims[|anims| - 1])]
  }

  function AsSeq<X>(o: Option<X>): seq<X>
  {
    if o.Some? then [o.value] else []
  }

  /** The layer's animations once `current` has been taken out and `next` added. */
  function Swapped(anims: seq<L.Animation>, current: Option<L.Animation>, next: Option<L.Animation>): seq<L.Animation>
  {
    (if current.Some? then L.RemoveFirst(anims, current.value) else anims) + AsSeq(next)
  }

  /** When the previous callback animation was the last one the layer got, a swap replaces it in place. */
  lemma SwapReplaces(base: seq<L.Animation>, current: L.Animation, next: Option<L.Animation>)
    requires current !in base
    ensures Swapped(base + [current], Some(current), next) == base + AsSeq(next)
  {
    L.RemoveAdded(base, current);
  }

  /** However often callbacks are swapped, the layer holds at most one of them beside its other animations. */
  lemma SwapKeepsOne(base: seq<L.Animation>, current: Option<L.Animation>, next: Option<L.Animation>)
    requires current.Some? ==> current.value !in base
    ensures Swapped(base + AsSeq(current), current, next) == base + AsSeq(next)
  {
    if current.Some? {
      SwapReplaces(base, current.value, next);
    }
  }

  /**
   * A COLOR_FILTER or GRADIENT_COLOR callback: the previous callback
   * animation, if any, leaves the layer; a null callback leaves none, any
   * other gets a new callback animation, which the content listens to and
   * the layer gets last.
   */
  method SwapCallbackAnimation(layer: L.BaseLayer, current: Option<L.Animation>, callback: object?)
    returns (next: Option<L.Animation>, created: CallbackAnimation?)
    modifies layer`animations
    ensures (callback == null) <==> (created == null)
    ensures created != null ==> fresh(created) && created.callback == callback && next == Some(L.Handle(created))
    ensures created == null ==> next == None
    ensures layer.animations == Swapped(old(layer.animations), current, next)
  {
    if current.Some? {
      layer.RemoveAnimation(current.value);
    }
    if callback == null {
      next, created := None, null;
    } else {
      created := new CallbackAnimation(callback);
      next := Some(L.Handle(created));
      layer.AddAnimation(next);
    }
  }

  /** Paint alpha in [0, 1]: the parent's share of 255 times the opacity percentage, clamped. */
  function PaintAlpha(parentAlpha: real, opacity: int): (r: real)
    ensures 0.0 <= r <= 1.0
    ensures 0.0 <= parentAlpha <= 255.0 && 0 <= opacity <= 100 ==> r == parentAlpha / 255.0 * (opacity as real / 100.0)
  {
    if 0.0 <= parentAlpha <= 255.0 && 0 <= opacity <= 100 then
      AlphaShareInUnit(parentAlpha, opacity);
      Clamp(parentAlpha / 255.0 * opacity as real / 100.0, 0.0, 1.0)
    else
      Clamp(parentAlpha / 255.0 * opacity as real / 100.0, 0.0, 1.0)
  }

  lemma AlphaShareInUnit(parentAlpha: real, opacity: int)
    requires 0.0 <= parentAlpha <= 255.0 && 0 <= opacity <= 100
    ensures parentAlpha / 255.0 * opacity as real / 100.0 == parentAlpha / 255.0 * (opacity as real / 100.0)
    ensures 0.0 <= parentAlpha / 255.0 * (opacity as real / 100.0) <= 1.0
  {
    QuotientInUnit(parentAlpha, 255.0);
    QuotientInUnit(opacity as real, 100.0);
    MulBetween(opacity as real / 100.0, parentAlpha / 255.0);
  }

  /** The path contents of `after`, collected in list order and appended to `paths`. */
  method CollectPaths(paths: seq<Content>, after: seq<Content>) returns (r: seq<Content>)
    ensures r == paths + Paths(after)
  {
    r := paths;
    for i := 0 to |after|
      invariant r == paths + Paths(after[..i])
    {
      PathsAppend(after[..i], [after[i]]);
      assert after[..i + 1] == after[..i] + [after[i]];
      if after[i].isPath {
        r := r + [after[i]];
      }
    }
    assert after[..|after|] == after;
  }

  /** The paths of `paths` added in order, each under `m`. */
  function AddedPaths(childPaths: seq<Path>, m: Matrix): Path
  {
    if childPaths == [] then [] else AddedPaths(childPaths[..|childPaths| - 1], m) + Transformed(childPaths[|childPaths| - 1], m)
  }

  /** Each sub-path of each added path is there, placed by `m`. */
  lemma {:induction false} AddedPathsHold(childPaths: seq<Path>, m: Matrix, j: nat, k: nat)
    requires j < |childPaths| && k < |childPaths[j]|
    ensures SubPath(childPaths[j][k].shape, Mul(m, childPaths[j][k].matrix)) in AddedPaths(childPaths, m)
  {
    if j < |childPaths| - 1 {
      AddedPathsHold(childPaths[..|childPaths| - 1], m, j, k);
    } else {
      assert Transformed(childPaths[j], m)[k] == SubPath(childPaths[j][k].shape, Mul(m, childPaths[j][k].matrix));
    }
  }

  /** Adds the child paths in order under `m`. */
  method AddPaths(childPaths: seq<Path>, m: Matrix) returns (path: Path)
    ensures path == AddedPaths(childPaths, m)
  {
    path := [];
    for i := 0 to |childPaths|
      invariant path == AddedPaths(childPaths[..i], m)
    {
      assert childPaths[..i + 1][..i] == childPaths[..i];
      path := path + Transformed(childPaths[i], m);
    }
    assert childPaths[..|childPaths|] == childPaths;
  }
}
