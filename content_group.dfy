/**
 * A group of shape contents: the contents built from a shape group's
 * models, an optional transform, the absorption of neighbours by greedy
 * contents when the group is built, and the order in which the group hands
 * on `setContents`, collects paths and draws its children (last first).
 */
module ContentGroups {
  import opened Wrappers
  import opened JavaNum
  import opened Geometry
  import opened Matrices
  import opened Contents
  import opened MergePaths
  import T = Transform
  import L = Layers
  import P = Properties

  /** A model of a shape group: its transform, or a shape that converts to a content, or to nothing. */
  datatype ContentModel =
    | TransformModel(present: set<T.Component>, splitPosition: bool)
    | ShapeModel(converted: Option<Content>)

  /** The contents the models convert to, in model order; a transform converts to nothing. */
  function Converted(models: seq<ContentModel>): seq<Content>
  {
    if models == [] then []
    else
      var last := models[|models| - 1];
      Converted(models[..|models| - 1]) + (if last.ShapeModel? && last.converted.Some? then [last.converted.value] else [])
  }

  /** A content is kept exactly when some model converts to it. */
  lemma {:induction false} ConvertedMembers(models: seq<ContentModel>, c: Content)
    ensures c in Converted(models) <==> exists i :: 0 <= i < |models| && models[i] == ShapeModel(Some(c))
    ensures |Converted(models)| <= |models|
  {
    if models != [] {
      var init := models[..|models| - 1];
      ConvertedMembers(init, c);
      if c in Converted(models) && c !in Converted(init) {
        assert models[|models| - 1] == ShapeModel(Some(c));
      }
      if exists i :: 0 <= i < |models| && models[i] == ShapeModel(Some(c)) {
        var i :| 0 <= i < |models| && models[i] == ShapeModel(Some(c));
        if i < |models| - 1 {
          assert init[i] == models[i];
        }
      }
    }
  }

  /** Converts every model and keeps the contents that are not null, in order. */
  method ContentsFromModels(models: seq<ContentModel>) returns (contents: seq<Content>)
    ensures contents == Converted(models)
  {
    contents := [];
    for i := 0 to |models|
      invariant contents == Converted(models[..i])
    {
      assert models[..i + 1][..i] == models[..i];
      var m := models[i];
      if m.ShapeModel? && m.converted.Some? {
        contents := contents + [m.converted.value];
      }
    }
    assert models[..|models|] == models;
  }

  /** The position of the first transform model, if there is one. */
  function FindTransform(models: seq<ContentModel>): (r: Option<nat>)
    ensures r.Some? ==> r.value < |models| && models[r.value].TransformModel?
    ensures r.Some? ==> forall j :: 0 <= j < r.value ==> !models[j].TransformModel?
    ensures r.None? ==> forall j :: 0 <= j < |models| ==> !models[j].TransformModel?
  {
    FindTransformFrom(models, 0)
  }

  function FindTransformFrom(models: seq<ContentModel>, i: nat): (r: Option<nat>)
    requires i <= |models|
    ensures r.Some? ==> i <= r.value < |models| && models[r.value].TransformModel?
    ensures r.Some? ==> forall j :: i <= j < r.value ==> !models[j].TransformModel?
    ensures r.None? ==> forall j :: i <= j < |models| ==> !models[j].TransformModel?
    decreases |models| - i
  {
    if i == |models| then None
    else if models[i].TransformModel? then Some(i)
    else FindTransformFrom(models, i + 1)
  }

  /** The greedy contents of `s`, in order. */
  function Greedies(s: seq<Content>): seq<Content>
  {
    if s == [] then [] else Greedies(s[..|s| - 1]) + (if s[|s| - 1].isGreedy then [s[|s| - 1]] else [])
  }

  /** The list after the greedy contents `selves` have absorbed from it, one after another. */
  function AbsorbAll(contents: seq<Content>, selves: seq<Content>): seq<Content>
  {
    if selves == [] then contents
    else Remaining(AbsorbAll(contents, selves[..|selves| - 1]), selves[|selves| - 1])
  }

  /** Absorption only takes contents out of the list. */
  lemma {:induction false} AbsorbAllShrinks(contents: seq<Content>, selves: seq<Content>)
    ensures multiset(AbsorbAll(contents, selves)) <= multiset(contents)
  {
    if selves != [] {
      var mid := AbsorbAll(contents, selves[..|selves| - 1]);
      AbsorbAllShrinks(contents, selves[..|selves| - 1]);
      AbsorbMoves(mid, selves[|selves| - 1]);
    }
  }

  /** A content that is not a path is never absorbed. */
  lemma {:induction false} AbsorbAllKeepsNonPaths(contents: seq<Content>, selves: seq<Content>, x: Content)
    requires x in contents && !x.isPath
    ensures x in AbsorbAll(contents, selves)
  {
    if selves != [] {
      var mid := AbsorbAll(contents, selves[..|selves| - 1]);
      AbsorbAllKeepsNonPaths(contents, selves[..|selves| - 1], x);
      RemainingKeepsNonPaths(mid, selves[|selves| - 1], x);
    }
  }

  lemma RemainingKeepsNonPaths(contents: seq<Content>, self: Content, x: Content)
    requires x in contents && !x.isPath
    ensures x in Remaining(contents, self)
  {
    match LastIndex(contents, self)
    case None =>
    case Some(j) =>
      var i :| 0 <= i < |contents| && contents[i] == x;
      if i < j {
        assert x in contents[..j];
        PathsMembers(contents[..j], x);
      } else {
        assert contents[j..][i - j] == x;
      }
  }

  /** The calls `setContents` makes on the children `n - 1` down to `i`: each gets the outer contents, then the children after it nearest last, and the children before it. */
  function SetContentsCalls(before: seq<Content>, cs: seq<Content>, i: nat): seq<GroupCall>
    requires i <= |cs|
    decreases |cs| - i
  {
    if i == |cs| then []
    else SetContentsCalls(before, cs, i + 1) + [SetChildContents(cs[i], before + Reversed(cs[i + 1..]), cs[..i])]
  }

  /** The `k`-th call goes to the child `n - 1 - k`, and there is one per child. */
  lemma {:induction false} SetContentsCallsEach(before: seq<Content>, cs: seq<Content>, i: nat, k: nat)
    requires i <= |cs|
    ensures |SetContentsCalls(before, cs, i)| == |cs| - i
    ensures k < |cs| - i ==>
      var c := |cs| - 1 - k;
      SetContentsCalls(before, cs, i)[k] == SetChildContents(cs[c], before + Reversed(cs[c + 1..]), cs[..c])
    decreases |cs| - i
  {
    if i < |cs| {
      SetContentsCallsEach(before, cs, i + 1, k);
    }
  }

  /** The path the children `n - 1` down to `i` add, each under the group matrix `m`. */
  function GroupPath(cs: seq<Content>, childPaths: seq<Path>, m: Matrix, i: nat): Path
    requires i <= |cs| == |childPaths|
    decreases |cs| - i
  {
    if i == |cs| then []
    else GroupPath(cs, childPaths, m, i + 1) + (if cs[i].isPath then Transformed(childPaths[i], m) else [])
  }

  /** Only path children add to the group's path: a group without one has an empty path. */
  lemma {:induction false} GroupPathWithoutPaths(cs: seq<Content>, childPaths: seq<Path>, m: Matrix, i: nat)
    requires i <= |cs| == |childPaths|
    requires forall j :: i <= j < |cs| ==> !cs[j].isPath
    ensures GroupPath(cs, childPaths, m, i) == []
    decreases |cs| - i
  {
    if i < |cs| {
      GroupPathWithoutPaths(cs, childPaths, m, i + 1);
    }
  }

  /** Each path child's sub-paths are all in the group's path, placed by the group matrix. */
  lemma {:induction false} GroupPathHolds(cs: seq<Content>, childPaths: seq<Path>, m: Matrix, i: nat, j: nat, k: nat)
    requires i <= j < |cs| == |childPaths| && cs[j].isPath && k < |childPaths[j]|
    ensures SubPath(childPaths[j][k].shape, Mul(m, childPaths[j][k].matrix)) in GroupPath(cs, childPaths, m, i)
    decreases |cs| - i
  {
    if i < j {
      GroupPathHolds(cs, childPaths, m, i + 1, j, k);
    } else {
      assert Transformed(childPaths[j], m)[k] == SubPath(childPaths[j][k].shape, Mul(m, childPaths[j][k].matrix));
    }
  }

  /** The bounds `outBounds` grows to when the drawing children `n - 1` down to `i` fuse theirs in. */
  function FusedBounds(outBounds: Rect, cs: seq<Content>, childBounds: seq<Rect>, i: nat): Rect
    requires i <= |cs| == |childBounds|
    decreases |cs| - i
  {
    if i == |cs| then outBounds
    else
      var b := FusedBounds(outBounds, cs, childBounds, i + 1);
      if cs[i].isDrawing then Union(b, childBounds[i]) else b
  }

  /** The fused bounds hold the starting bounds and every drawing child's bounds. */
  lemma {:induction false} FusedBoundsHold(outBounds: Rect, cs: seq<Content>, childBounds: seq<Rect>, i: nat, j: nat)
    requires i <= |cs| == |childBounds|
    ensures Inside(outBounds, FusedBounds(outBounds, cs, childBounds, i))
    ensures i <= j < |cs| && cs[j].isDrawing ==> Inside(childBounds[j], FusedBounds(outBounds, cs, childBounds, i))
    decreases |cs| - i
  {
    if i < |cs| {
      FusedBoundsHold(outBounds, cs, childBounds, i + 1, j);
    }
  }

  /** Whether at least two of `s[i..]` draw, given `count` drawing contents already seen; stops at the second. */
  function TwoDrawingsFrom(s: seq<Content>, i: nat, count: nat): (r: bool)
    requires i <= |s| && count < 2
    ensures r <==> count + |Drawings(s[i..])| >= 2
    decreases |s| - i
  {
    assert s[i..] == if i == |s| then [] else [s[i]] + s[i + 1..];
    if i == |s| then false
    else if s[i].isDrawing then
      if count + 1 >= 2 then true else TwoDrawingsFrom(s, i + 1, count + 1)
    else TwoDrawingsFrom(s, i + 1, count)
  }

  /** Whether at least two children draw. */
  function HasTwoOrMoreDrawableContent(s: seq<Content>): (r: bool)
    ensures r <==> |Drawings(s)| >= 2
  {
    assert s[0..] == s;
    TwoDrawingsFrom(s, 0, 0)
  }

  /** The alpha a group with a transform draws with: `opacity/100 * parentAlpha/255 * 255`, truncated. */
  function GroupAlpha(parentAlpha: real, opacity: Option<int>): real
  {
    ToInt(OpacityShare(OpacityOr100(opacity), parentAlpha) * 255.0) as real
  }

  function OpacityOr100(opacity: Option<int>): int
  {
    if opacity.Some? then opacity.value else 100
  }

  function OpacityShare(opacity: int, parentAlpha: real): real
  {
    opacity as real / 100.0 * parentAlpha / 255.0
  }

  /** Full opacity keeps a whole-number parent alpha in 0..255 as it is. */
  lemma GroupAlphaFull(parentAlpha: int)
    requires 0 <= parentAlpha <= 255
    ensures GroupAlpha(parentAlpha as real, None) == parentAlpha as real
  {
    assert OpacityShare(100, parentAlpha as real) * 255.0 == parentAlpha as real;
  }

  /** Whether the group draws its children into an offscreen layer. */
  predicate Offscreen(applyOpacityToLayers: bool, contents: seq<Content>, layerAlpha: real)
  {
    applyOpacityToLayers && HasTwoOrMoreDrawableContent(contents) && layerAlpha != 255.0
  }

  /** A call the group makes on a child or on its drawable. */
  datatype GroupCall =
    | SetChildContents(target: Content, before: seq<Content>, after: seq<Content>)
    | Invalidate

  /** An operation the group's `draw` issues. */
  datatype GroupOp =
    | SaveLayer(bounds: Rect, paintAlpha: real)
    | DrawChild(child: Content, matrix: Matrix, alpha: real)
    | Restore

  /** The drawing children `n - 1` down to `i` drawn with `matrix` and `alpha`. */
  function DrawChildren(cs: seq<Content>, matrix: Matrix, alpha: real, i: nat): seq<GroupOp>
    requires i <= |cs|
    decreases |cs| - i
  {
    if i == |cs| then []
    else DrawChildren(cs, matrix, alpha, i + 1) + (if cs[i].isDrawing then [DrawChild(cs[i], matrix, alpha)] else [])
  }

  /** Children are drawn exactly when they draw, last first. */
  lemma {:induction false} DrawChildrenAreDrawings(cs: seq<Content>, matrix: Matrix, alpha: real, i: nat)
    requires i <= |cs|
    ensures |DrawChildren(cs, matrix, alpha, i)| == |Drawings(cs[i..])|
    decreases |cs| - i
  {
    if i < |cs| {
      DrawChildrenAreDrawings(cs, matrix, alpha, i + 1);
      assert cs[i..] == [cs[i]] + cs[i + 1..];
    }
  }

  /** Everything one `draw` of a group issues. */
  function GroupDrawOps(hidden: bool, hasTransform: bool, contents: seq<Content>, parentMatrix: Matrix, parentAlpha: real,
                        opacity: Option<int>, groupMatrix: Matrix, applyOpacityToLayers: bool, childBounds: seq<Rect>): seq<GroupOp>
    requires |childBounds| == |contents|
  {
    if hidden then []
    else
      var matrix := if hasTransform then Mul(parentMatrix, groupMatrix) else parentMatrix;
      var layerAlpha := if hasTransform then GroupAlpha(parentAlpha, opacity) else parentAlpha;
      if Offscreen(applyOpacityToLayers, contents, layerAlpha) then
        [SaveLayer(FusedBounds(EmptyRect, contents, childBounds, 0), layerAlpha / 255.0)]
        + DrawChildren(contents, matrix, 255.0, 0) + [Restore]
      else DrawChildren(contents, matrix, layerAlpha, 0)
  }

  /** The offscreen layer is used exactly when opacity goes to layers, two children draw and the alpha is not full; its children then draw at full alpha. */
  lemma GroupDrawOffscreen(contents: seq<Content>, parentMatrix: Matrix, parentAlpha: real, opacity: Option<int>, groupMatrix: Matrix,
                           applyOpacityToLayers: bool, childBounds: seq<Rect>, hasTransform: bool)
    requires |childBounds| == |contents|
    ensures var ops := GroupDrawOps(false, hasTransform, contents, parentMatrix, parentAlpha, opacity, groupMatrix, applyOpacityToLayers, childBounds);
      var layerAlpha := if hasTransform then GroupAlpha(parentAlpha, opacity) else parentAlpha;
      && (|ops| > 0 && ops[0].SaveLayer? <==> applyOpacityToLayers && |Drawings(contents)| >= 2 && layerAlpha != 255.0)
      && (forall k :: 0 <= k < |ops| && ops[k].DrawChild? ==>
            ops[k].alpha == if Offscreen(applyOpacityToLayers, contents, layerAlpha) then 255.0 else layerAlpha)
  {
    var matrix := if hasTransform then Mul(parentMatrix, groupMatrix) else parentMatrix;
    var layerAlpha := if hasTransform then GroupAlpha(parentAlpha, opacity) else parentAlpha;
    var alpha := if Offscreen(applyOpacityToLayers, contents, layerAlpha) then 255.0 else layerAlpha;
    DrawChildrenAlpha(contents, matrix, alpha, 0);
    DrawChildrenNoSave(contents, matrix, layerAlpha, 0);
  }

  lemma {:induction false} DrawChildrenAlpha(cs: seq<Content>, matrix: Matrix, alpha: real, i: nat)
    requires i <= |cs|
    ensures forall k :: 0 <= k < |DrawChildren(cs, matrix, alpha, i)| ==>
      DrawChildren(cs, matrix, alpha, i)[k].DrawChild? && DrawChildren(cs, matrix, alpha, i)[k].alpha == alpha
    decreases |cs| - i
  {
    if i < |cs| {
      DrawChildrenAlpha(cs, matrix, alpha, i + 1);
    }
  }

  lemma DrawChildrenNoSave(cs: seq<Content>, matrix: Matrix, alpha: real, i: nat)
    requires i <= |cs|
    ensures |DrawChildren(cs, matrix, alpha, i)| > 0 ==> !DrawChildren(cs, matrix, alpha, i)[0].SaveLayer?
  {
    DrawChildrenAlpha(cs, matrix, alpha, i);
  }

  class ContentGroup {
    /** Identifies the group as a listener. */
    const id: nat
    const hidden: bool
    /** The group's transform, when its models hold one. */
    const transform: T.TransformKeyframeAnimation?
    var contents: seq<Content>
    /** The path children, once listed. */
    var pathContents: Option<seq<Content>>
    var calls: seq<GroupCall>

    /**
     * Builds the transform (when there is one), adds its animations to the
     * layer and listens to it; then lets each greedy content, in list
     * order, absorb from the list. `merges` are the greedy contents'
     * objects, in list order.
     */
    constructor (id: nat, hidden: bool, layer: L.BaseLayer, contents: seq<Content>, transformModel: Option<ContentModel>,
                 merges: seq<MergePathsContent>)
      requires transformModel.Some? ==> transformModel.value.TransformModel?
      requires transformModel.Some? && transformModel.value.splitPosition ==> T.Position in transformModel.value.present
      requires Selves(merges) == Greedies(contents)
      requires forall k, l :: 0 <= k < l < |merges| ==> merges[k] != merges[l]
      modifies layer`animations, set m | m in merges
      ensures this.id == id && this.hidden == hidden
      ensures transformModel.None? <==> transform == null
      ensures transform != null ==>
        && fresh(transform) && transform.Valid()
        && transform.present == transformModel.value.present && transform.splitPosition == transformModel.value.splitPosition
        && transform.calls == T.Fanout(T.PresentIn(T.ORDER, transform.present), T.Listen(id))
        && layer.animations == old(layer.animations) + L.Parts(transform, T.PresentIn(T.ORDER, transform.present))
      ensures transform == null ==> layer.animations == old(layer.animations)
      ensures this.contents == AbsorbAll(contents, Greedies(contents))
      ensures forall k :: 0 <= k < |merges| ==>
        merges[k].pathContents == old(merges[k].pathContents) + Absorbed(AbsorbAll(contents, Selves(merges)[..k]), merges[k].self)
      ensures pathContents.None? && calls == []
    {
      this.id, this.hidden := id, hidden;
      var t := MakeTransform(id, layer, transformModel);
      transform := t;
      var rest := AbsorbGreedy(contents, merges);
      this.contents, pathContents, calls := rest, None, [];
    }

    /** Hands `setContents` on to every child, last first; `after` is not used. */
    method SetContents(before: seq<Content>, after: seq<Content>)
      modifies this`calls
      ensures calls == old(calls) + SetContentsCalls(before, contents, 0)
    {
      var myBefore := before;
      var i := |contents|;
      while i > 0
        invariant 0 <= i <= |contents|
        invariant myBefore == before + Reversed(contents[i..])
        invariant calls == old(calls) + SetContentsCalls(before, contents, i)
      {
        i := i - 1;
        assert contents[i..] == [contents[i]] + contents[i + 1..];
        calls := calls + [SetChildContents(contents[i], myBefore, contents[..i])];
        myBefore := myBefore + [contents[i]];
      }
    }

    /** The path children, listed on the first call and kept. */
    method GetPathList() returns (r: seq<Content>)
      modifies this`pathContents
      ensures old(pathContents).Some? ==> r == old(pathContents).value && pathContents == old(pathContents)
      ensures old(pathContents).None? ==> r == Paths(contents) && pathContents == Some(r)
    {
      if pathContents.Some? {
        return pathContents.value;
      }
      r := [];
      for i := 0 to |contents|
        invariant r == Paths(contents[..i])
      {
        PathsAppend(contents[..i], [contents[i]]);
        assert contents[..i + 1] == contents[..i] + [contents[i]];
        if contents[i].isPath {
          r := r + [contents[i]];
        }
      }
      assert contents[..|contents|] == contents;
      pathContents := Some(r);
    }

    /**
     * The group's path: empty when hidden, else every path child's path,
     * last first, added under the group matrix (the identity without a
     * transform). `groupMatrix` is what the transform reports and
     * `childPaths[i]` what child `i` reports.
     */
    method GetPath(groupMatrix: Matrix, childPaths: seq<Path>) returns (path: Path)
      requires |childPaths| == |contents|
      ensures path == if hidden then [] else GroupPath(contents, childPaths, if transform != null then groupMatrix else Identity, 0)
    {
      var matrix := Identity;
      if transform != null {
        matrix := groupMatrix;
      }
      path := [];
      if hidden {
        return;
      }
      var i := |contents|;
      while i > 0
        invariant 0 <= i <= |contents|
        invariant path == GroupPath(contents, childPaths, matrix, i)
      {
        i := i - 1;
        if contents[i].isPath {
          path := path + Transformed(childPaths[i], matrix);
        }
      }
    }

    /** Fuses into `outBounds` the bounds of every drawing child, last first; `childBounds[i]` is what child `i` reports. */
    method GetBounds(outBounds: Rect, childBounds: seq<Rect>) returns (r: Rect)
      requires |childBounds| == |contents|
      ensures r == FusedBounds(outBounds, contents, childBounds, 0)
    {
      r := outBounds;
      var i := |contents|;
      while i > 0
        invariant 0 <= i <= |contents|
        invariant r == FusedBounds(outBounds, contents, childBounds, i)
      {
        i := i - 1;
        if contents[i].isDrawing {
          r := Union(r, childBounds[i]);
        }
      }
    }

    /**
     * One `draw`: nothing when hidden; otherwise each drawing child, last
     * first, under the parent and group matrices, through an offscreen layer
     * when opacity goes to layers, two or more children draw and the alpha is
     * not full. `opacity` and `groupMatrix` are what the transform reports.
     */
    method Draw(parentMatrix: Matrix, parentAlpha: real, opacity: Option<int>, groupMatrix: Matrix,
                applyOpacityToLayers: bool, childBounds: seq<Rect>) returns (ops: seq<GroupOp>)
      requires |childBounds| == |contents|
      ensures ops == GroupDrawOps(hidden, transform != null, contents, parentMatrix, parentAlpha, opacity, groupMatrix,
                                  applyOpacityToLayers, childBounds)
    {
      ops := [];
      if hidden {
        return;
      }
      var matrix := parentMatrix;
      var layerAlpha;
      if transform != null {
        matrix := Mul(matrix, groupMatrix);
        layerAlpha := GroupAlpha(parentAlpha, opacity);
      } else {
        layerAlpha := parentAlpha;
      }
      var offscreen := Offscreen(applyOpacityToLayers, contents, layerAlpha);
      if offscreen {
        var bounds := GetBounds(EmptyRect, childBounds);
        ops := [SaveLayer(bounds, layerAlpha / 255.0)];
      }
      var childAlpha := if offscreen then 255.0 else layerAlpha;
      var i := |contents|;
      ghost var head := ops;
      while i > 0
        invariant 0 <= i <= |contents|
        invariant ops == head + DrawChildren(contents, matrix, childAlpha, i)
      {
        i := i - 1;
        if contents[i].isDrawing {
          AppendAssoc(head, DrawChildren(contents, matrix, childAlpha, i + 1), [DrawChild(contents[i], matrix, childAlpha)]);
          ops := ops + [DrawChild(contents[i], matrix, childAlpha)];
        }
      }
      if offscreen {
        ops := ops + [Restore];
      } else {
        assert ops == [] + DrawChildren(contents, matrix, childAlpha, 0);
      }
    }

    /** A value the group listens to changed: invalidate the drawable. */
    method OnValueChanged()
      modifies this`calls
      ensures calls == old(calls) + [Invalidate]
    {
      calls := calls + [Invalidate];
    }

    /** Hands a value callback to the group's transform; nothing happens without one. */
    method AddValueCallback(p: P.Property, callback: object?) returns (r: Result<bool>)
      requires transform != null ==> transform.Valid()
      modifies transform
      ensures transform == null ==> r == Ok(false)
      ensures transform != null ==> (r.Err? <==> T.Route(p, transform.present, transform.splitPosition).Err?)
      ensures transform != null && r != Ok(true) ==> transform.calls == old(transform.calls)
    {
      if transform == null {
        return Ok(false);
      }
      r := transform.ApplyValueCallback(p, callback);
    }
  }

  /** Lets each of `merges`, in order, absorb from the list, and returns what is left of it. */
  method AbsorbGreedy(contents: seq<Content>, merges: seq<MergePathsContent>) returns (rest: seq<Content>)
    requires forall k, l :: 0 <= k < l < |merges| ==> merges[k] != merges[l]
    modifies set m | m in merges
    ensures rest == AbsorbAll(contents, Selves(merges))
    ensures forall k :: 0 <= k < |merges| ==>
      merges[k].pathContents == old(merges[k].pathContents) + Absorbed(AbsorbAll(contents, Selves(merges)[..k]), merges[k].self)
  {
    ghost var selves := Selves(merges);
    rest := contents;
    for k := 0 to |merges|
      invariant rest == AbsorbAll(contents, selves[..k])
      invariant forall k' :: 0 <= k' < k ==>
        merges[k'].pathContents == old(merges[k'].pathContents) + Absorbed(AbsorbAll(contents, selves[..k']), selves[k'])
      invariant forall k' :: k <= k' < |merges| ==> merges[k'].pathContents == old(merges[k'].pathContents)
    {
      assert selves[..k + 1][..k] == selves[..k];
      rest := merges[k].AbsorbContent(rest);
    }
    assert selves[..|merges|] == selves;
  }

  /** Builds a group's transform, adds its animations to the layer and listens to it. */
  method MakeTransform(id: nat, layer: L.BaseLayer, transformModel: Option<ContentModel>) returns (transform: T.TransformKeyframeAnimation?)
    requires transformModel.Some? ==> transformModel.value.TransformModel?
    requires transformModel.Some? && transformModel.value.splitPosition ==> T.Position in transformModel.value.present
    modifies layer`animations
    ensures transformModel.None? <==> transform == null
    ensures transform != null ==>
      && fresh(transform) && transform.Valid()
      && transform.present == transformModel.value.present && transform.splitPosition == transformModel.value.splitPosition
      && transform.calls == T.Fanout(T.PresentIn(T.ORDER, transform.present), T.Listen(id))
      && layer.animations == old(layer.animations) + L.Parts(transform, T.PresentIn(T.ORDER, transform.present))
    ensures transform == null ==> layer.animations == old(layer.animations)
  {
    if transformModel.None? {
      return null;
    }
    var t := new T.TransformKeyframeAnimation(transformModel.value.present, transformModel.value.splitPosition);
    L.AddAnimationsToLayer(t, layer);
    t.AddListener(id);
    return t;
  }

  /** The list entries of the given merge contents. */
  function Selves(merges: seq<MergePathsContent>): (r: seq<Content>)
    ensures |r| == |merges|
    ensures forall k :: 0 <= k < |merges| ==> r[k] == merges[k].self
  {
    if merges == [] then [] else Selves(merges[..|merges| - 1]) + [merges[|merges| - 1].self]
  }
}
