/**
 * A layer's or a repeater's transform: up to nine component animations
 * (opacity, start and end opacity, anchor point, position, scale, rotation,
 * skew and skew angle) whose current values are composed into one matrix.
 *
 * The components are other objects; what the transform asks of them is
 * kept as a log of calls, and the values they report when the matrix is
 * built are passed in.
 */
module Transform {
  import opened Wrappers
  import opened Geometry
  import opened Matrices
  import P = Properties

  datatype Component = Opacity | StartOpacity | EndOpacity | AnchorPoint | Position | Scale | Rotation | Skew | SkewAngle

  /** The order in which every fan-out visits the components. */
  const ORDER: seq<Component> := [Opacity, StartOpacity, EndOpacity, AnchorPoint, Position, Scale, Rotation, Skew, SkewAngle]

  /** Where a value callback goes: a component, or one axis of a split position. */
  datatype Target = Part(component: Component) | PositionX | PositionY

  /** A call the transform makes on one of its components. */
  datatype Call =
    | SetProgressOf(component: Component, progress: real)
    | AddListenerTo(component: Component, listener: nat)
    | SetCallbackOf(target: Target, callback: object?)

  /** The components of `order` that are present, in that order. */
  function PresentIn(order: seq<Component>, present: set<Component>): seq<Component>
  {
    if order == [] then []
    else PresentIn(order[..|order| - 1], present) + (if order[|order| - 1] in present then [order[|order| - 1]] else [])
  }

  /** Exactly the components of `order` that are present are visited. */
  lemma {:induction false} PresentInMembers(order: seq<Component>, present: set<Component>, c: Component)
    ensures c in PresentIn(order, present) <==> c in order && c in present
  {
    if order != [] {
      var init := order[..|order| - 1];
      PresentInMembers(init, present, c);
      assert order == init + [order[|order| - 1]];
    }
  }

  /** No component twice. */
  predicate Distinct(s: seq<Component>)
  {
    forall i, j :: 0 <= i < j < |s| ==> s[i] != s[j]
  }

  lemma {:induction false} PresentInDistinct(order: seq<Component>, present: set<Component>)
    requires Distinct(order)
    ensures Distinct(PresentIn(order, present))
  {
    if order != [] {
      var init, last := order[..|order| - 1], order[|order| - 1];
      assert Distinct(init);
      PresentInDistinct(init, present);
      PresentInMembers(init, present, last);
      assert last !in init;
    }
  }

  /** What a fan-out asks of every present component. */
  datatype Request = ProgressTo(progress: real) | Listen(listener: nat)

  /** The call that carries `r` to component `c`. */
  function CallOf(r: Request, c: Component): Call
  {
    match r
    case ProgressTo(p) => SetProgressOf(c, p)
    case Listen(l) => AddListenerTo(c, l)
  }

  /** The calls a fan-out of `r` over the components `cs` makes. */
  function Fanout(cs: seq<Component>, r: Request): seq<Call>
  {
    if cs == [] then [] else Fanout(cs[..|cs| - 1], r) + [CallOf(r, cs[|cs| - 1])]
  }

  /** Visiting one more component adds its call when it is present. */
  lemma FanoutStep(order: seq<Component>, present: set<Component>, r: Request, i: nat)
    requires i < |order|
    ensures Fanout(PresentIn(order[..i + 1], present), r)
      == Fanout(PresentIn(order[..i], present), r) + (if order[i] in present then [CallOf(r, order[i])] else [])
  {
    assert order[..i + 1][..i] == order[..i];
    var before := PresentIn(order[..i], present);
    assert order[..i + 1][i] == order[i];
    if order[i] in present {
      var after := before + [order[i]];
      assert PresentIn(order[..i + 1], present) == after;
      assert after[..|after| - 1] == before && after[|after| - 1] == order[i];
      assert Fanout(after, r) == Fanout(before, r) + [CallOf(r, order[i])];
    } else {
      assert PresentIn(order[..i + 1], present) == before;
    }
  }

  /**
   * A fan-out reaches every present component exactly once and no absent
   * one: among the calls it makes, the call to `c` occurs once when `c` is
   * present and never otherwise.
   */
  lemma FanoutOnce(present: set<Component>, r: Request, c: Component)
    ensures multiset(Fanout(PresentIn(ORDER, present), r))[CallOf(r, c)] == if c in present then 1 else 0
  {
    var cs := PresentIn(ORDER, present);
    OrderDistinct();
    PresentInDistinct(ORDER, present);
    DistinctCount(cs, r, c);
    PresentInMembers(ORDER, present, c);
    InOrder(c);
  }

  /** No component appears twice in the fixed order. */
  lemma OrderDistinct()
    ensures Distinct(ORDER)
  {
  }

  /** Every component has its place in the fixed order. */
  lemma InOrder(c: Component)
    ensures c in ORDER
  {
    match c
    case Opacity => assert ORDER[0] == c;
    case StartOpacity => assert ORDER[1] == c;
    case EndOpacity => assert ORDER[2] == c;
    case AnchorPoint => assert ORDER[3] == c;
    case Position => assert ORDER[4] == c;
    case Scale => assert ORDER[5] == c;
    case Rotation => assert ORDER[6] == c;
    case Skew => assert ORDER[7] == c;
    case SkewAngle => assert ORDER[8] == c;
  }

  lemma {:induction false} DistinctCount(cs: seq<Component>, r: Request, c: Component)
    requires Distinct(cs)
    ensures multiset(Fanout(cs, r))[CallOf(r, c)] == if c in cs then 1 else 0
  {
    if cs != [] {
      var init, last := cs[..|cs| - 1], cs[|cs| - 1];
      assert Distinct(init);
      DistinctCount(init, r, c);
      assert cs == init + [last];
      assert multiset(Fanout(cs, r)) == multiset(Fanout(init, r)) + multiset{CallOf(r, last)};
      assert CallOf(r, last) == CallOf(r, c) <==> last == c;
      assert c in cs <==> c in init || c == last;
      assert last !in init;
    }
  }

  /** The values the components report when the matrix is built; an absent component's is ignored. */
  datatype Values = Values(position: Point, rotation: real, skew: real, skewAngle: real, scale: ScaleXY, anchorPoint: Point)

  /** Appends a stage to a product, or skips it. */
  function Then(m: Matrix, stage: Option<Matrix>): Matrix
  {
    if stage.None? then m else Mul(m, stage.value)
  }

  /** A stage stands for `full`: skipped only when `full` is the identity, applied as `full` otherwise. */
  predicate StageAgrees(stage: Option<Matrix>, full: Matrix)
  {
    (stage.None? ==> Same(full, Identity)) && (stage.Some? ==> Same(stage.value, full))
  }

  /** A stage that is skipped counts as the identity. */
  lemma ThenFull(m: Matrix, m': Matrix, stage: Option<Matrix>, full: Matrix)
    requires Same(m, m') && StageAgrees(stage, full)
    ensures Same(Then(m, stage), Mul(m', full))
  {
    if stage.None? {
      MulIdentity(m');
      MulSame(m', m', full, Identity);
    } else {
      MulSame(m, m', stage.value, full);
    }
  }

  /** A stage whose values are the identity's changes nothing. */
  lemma ThenIdentity(m: Matrix, stage: Option<Matrix>)
    requires StageAgrees(stage, Identity)
    ensures Same(Then(m, stage), m)
  {
    if stage.Some? {
      MulIdentity(m);
      MulSame(m, m, stage.value, Identity);
    }
  }

  /** The cosine and sine the skew uses: of 90 degrees minus the skew angle, or 0 and 1 without one. */
  function SkewCosSin(t: Trig, hasAngle: bool, angle: real): (real, real)
  {
    if hasAngle then (t.cosDeg(-angle + 90.0), t.sinDeg(-angle + 90.0)) else (0.0, 1.0)
  }

  /** The three grids of a skew: rotate back, shear by the tangent, rotate by the angle. */
  function SkewBack(c: real, s: real): Grid { Grid(c, -s, 0.0, s, c, 0.0, 0.0, 0.0, 1.0) }
  function Shear(tan: real): Grid { Grid(1.0, 0.0, 0.0, tan, 1.0, 0.0, 0.0, 0.0, 1.0) }
  function SkewTurn(c: real, s: real): Grid { Grid(c, s, 0.0, -s, c, 0.0, 0.0, 0.0, 1.0) }

  /** The skew: the three grids multiplied together, the turn applied first. */
  function SkewMatrix(c: real, s: real, tan: real): Matrix
  {
    Mul(Elements(SkewBack(c, s)), Mul(Elements(Shear(tan)), Elements(SkewTurn(c, s))))
  }

  /** A skew of zero is no skew at all, whatever the angle, as long as its cosine and sine lie on the unit circle. */
  lemma ZeroSkewIsIdentity(c: real, s: real)
    requires c * c + s * s == 1.0
    ensures Same(SkewMatrix(c, s, 0.0), Identity)
  {
    var turn := SkewTurn(c, s);
    assert Times(Shear(0.0), turn) == turn;
    assert ValuesOf(Mul(Elements(Shear(0.0)), Elements(turn))) == turn;
    assert ValuesOf(SkewMatrix(c, s, 0.0)) == Times(SkewBack(c, s), turn);
    assert c * c + (-s) * (-s) == 1.0 && s * s + c * c == 1.0;
    assert c * s + (-s) * c == 0.0 && s * c + c * (-s) == 0.0;
  }

  /** With exact trigonometry a missing skew angle behaves as an angle of 0. */
  lemma MissingSkewAngleIsZero(t: Trig)
    requires Exact(t)
    ensures SkewCosSin(t, false, 0.0) == SkewCosSin(t, true, 0.0)
  {
    assert -0.0 + 90.0 == 90.0;
  }

  function PositionStage(present: set<Component>, v: Values): Option<Matrix>
  {
    if Position in present && (v.position.x != 0.0 || v.position.y != 0.0)
    then Some(Translation(v.position.x, v.position.y)) else None
  }

  function RotationStage(t: Trig, present: set<Component>, v: Values): Option<Matrix>
  {
    if Rotation in present && v.rotation != 0.0 then Some(Matrices.Rotation(t, v.rotation)) else None
  }

  function SkewStage(t: Trig, present: set<Component>, v: Values): Option<Matrix>
  {
    if Skew in present then
      var (c, s) := SkewCosSin(t, SkewAngle in present, v.skewAngle);
      Some(SkewMatrix(c, s, t.tanDeg(v.skew)))
    else None
  }

  function ScaleStage(present: set<Component>, v: Values): Option<Matrix>
  {
    if Scale in present && (v.scale.scaleX != 1.0 || v.scale.scaleY != 1.0)
    then Some(Scaling(v.scale.scaleX, v.scale.scaleY)) else None
  }

  function AnchorStage(present: set<Component>, v: Values): Option<Matrix>
  {
    if AnchorPoint in present && (v.anchorPoint.x != 0.0 || v.anchorPoint.y != 0.0)
    then Some(Translation(-v.anchorPoint.x, -v.anchorPoint.y)) else None
  }

  /** The layer matrix: translate, rotate, skew, scale, then move the anchor to the origin, each stage only when it does something. */
  function MatrixOf(t: Trig, present: set<Component>, v: Values): Matrix
  {
    Then(Then(Then(Then(Then(Identity, PositionStage(present, v)), RotationStage(t, present, v)),
                   SkewStage(t, present, v)), ScaleStage(present, v)), AnchorStage(present, v))
  }

  /** What each stage stands for, an absent component counting as its identity value. */
  function FullPosition(present: set<Component>, v: Values): Matrix
  {
    if Position in present then Translation(v.position.x, v.position.y) else Identity
  }

  function FullRotation(t: Trig, present: set<Component>, v: Values): Matrix
  {
    Matrices.Rotation(t, if Rotation in present then v.rotation else 0.0)
  }

  function FullSkew(t: Trig, present: set<Component>, v: Values): Matrix
  {
    if Skew in present then SkewStage(t, present, v).value else Identity
  }

  function FullScale(present: set<Component>, v: Values): Matrix
  {
    if Scale in present then Scaling(v.scale.scaleX, v.scale.scaleY) else Identity
  }

  function FullAnchor(present: set<Component>, v: Values): Matrix
  {
    if AnchorPoint in present then Translation(-v.anchorPoint.x, -v.anchorPoint.y) else Identity
  }

  /** Each stage is skipped only when what it stands for is the identity. */
  lemma StagesAgree(t: Trig, present: set<Component>, v: Values)
    requires Exact(t)
    ensures StageAgrees(PositionStage(present, v), FullPosition(present, v))
    ensures StageAgrees(RotationStage(t, present, v), FullRotation(t, present, v))
    ensures StageAgrees(SkewStage(t, present, v), FullSkew(t, present, v))
    ensures StageAgrees(ScaleStage(present, v), FullScale(present, v))
    ensures StageAgrees(AnchorStage(present, v), FullAnchor(present, v))
  {
    assert -0.0 == 0.0;
  }

  /**
   * Skipping a stage whose value is the identity changes nothing: with
   * exact trigonometry the matrix holds the values of the full product of
   * all five stages, an absent component standing for its identity value.
   */
  lemma MatrixIsFullProduct(t: Trig, present: set<Component>, v: Values)
    requires Exact(t)
    ensures Same(MatrixOf(t, present, v),
      Mul(Mul(Mul(Mul(FullPosition(present, v), FullRotation(t, present, v)), FullSkew(t, present, v)),
              FullScale(present, v)), FullAnchor(present, v)))
  {
    StagesAgree(t, present, v);
    var m1 := FullPosition(present, v);
    MulIdentity(m1);
    ThenFull(Identity, Identity, PositionStage(present, v), m1);
    var n1 := Then(Identity, PositionStage(present, v));
    var m2 := Mul(m1, FullRotation(t, present, v));
    ThenFull(n1, m1, RotationStage(t, present, v), FullRotation(t, present, v));
    var n2 := Then(n1, RotationStage(t, present, v));
    var m3 := Mul(m2, FullSkew(t, present, v));
    ThenFull(n2, m2, SkewStage(t, present, v), FullSkew(t, present, v));
    var n3 := Then(n2, SkewStage(t, present, v));
    var m4 := Mul(m3, FullScale(present, v));
    ThenFull(n3, m3, ScaleStage(present, v), FullScale(present, v));
    var n4 := Then(n3, ScaleStage(present, v));
    ThenFull(n4, m4, AnchorStage(present, v), FullAnchor(present, v));
  }

  /** Without any component the matrix is the identity. */
  lemma NothingPresentIsIdentity(t: Trig, v: Values)
    ensures MatrixOf(t, {}, v) == Identity
  {
  }

  /** A component's value multiplied by the number of copies. */
  function Repeated(x: real, amount: real): real
  {
    x * amount
  }

  /** The pivot of the repeater's rotation: the anchor point, or the origin without one. */
  function Pivot(present: set<Component>, v: Values): Point
  {
    if AnchorPoint in present then v.anchorPoint else Point(0.0, 0.0)
  }

  function RepeaterPositionStage(present: set<Component>, v: Values, amount: real): Option<Matrix>
  {
    if Position in present then Some(Translation(Repeated(v.position.x, amount), Repeated(v.position.y, amount))) else None
  }

  function RepeaterScaleStage(t: Trig, present: set<Component>, v: Values, amount: real): Option<Matrix>
  {
    if Scale in present then Some(Scaling(t.pow(v.scale.scaleX, amount), t.pow(v.scale.scaleY, amount))) else None
  }

  function RepeaterRotationStage(t: Trig, present: set<Component>, v: Values, amount: real): Option<Matrix>
  {
    if Rotation in present then Some(RotationAbout(t, Repeated(v.rotation, amount), Pivot(present, v).x, Pivot(present, v).y)) else None
  }

  /** The repeater matrix for `amount` copies: position scaled by it, scale raised to it, rotation multiplied by it about the anchor. */
  function RepeaterMatrixOf(t: Trig, present: set<Component>, v: Values, amount: real): Matrix
  {
    Then(Then(Then(Identity, RepeaterPositionStage(present, v, amount)), RepeaterScaleStage(t, present, v, amount)),
      RepeaterRotationStage(t, present, v, amount))
  }

  /** Zero copies' worth of transform is no transform. */
  lemma RepeaterAtZero(t: Trig, present: set<Component>, v: Values)
    requires Exact(t)
    ensures Same(RepeaterMatrixOf(t, present, v, 0.0), Identity)
  {
    RepeaterPositionAtZero(present, v);
    RepeaterScaleAtZero(t, present, v);
    RepeaterRotationAtZero(t, present, v);
    var n1 := Then(Identity, RepeaterPositionStage(present, v, 0.0));
    ThenIdentity(Identity, RepeaterPositionStage(present, v, 0.0));
    var n2 := Then(n1, RepeaterScaleStage(t, present, v, 0.0));
    ThenIdentity(n1, RepeaterScaleStage(t, present, v, 0.0));
    ThenIdentity(n2, RepeaterRotationStage(t, present, v, 0.0));
  }

  /** At zero copies every repeater stage holds the identity's values. */
  lemma RepeaterPositionAtZero(present: set<Component>, v: Values)
    ensures StageAgrees(RepeaterPositionStage(present, v, 0.0), Identity)
  {
    assert Repeated(v.position.x, 0.0) == 0.0 && Repeated(v.position.y, 0.0) == 0.0;
  }

  lemma RepeaterScaleAtZero(t: Trig, present: set<Component>, v: Values)
    requires Exact(t)
    ensures StageAgrees(RepeaterScaleStage(t, present, v, 0.0), Identity)
  {
    assert t.pow(v.scale.scaleX, 0.0) == 1.0 && t.pow(v.scale.scaleY, 0.0) == 1.0;
  }

  lemma RepeaterRotationAtZero(t: Trig, present: set<Component>, v: Values)
    requires Exact(t)
    ensures StageAgrees(RepeaterRotationStage(t, present, v, 0.0), Identity)
  {
    if Rotation in present {
      var q := Pivot(present, v);
      assert Repeated(v.rotation, 0.0) == 0.0;
      assert RepeaterRotationStage(t, present, v, 0.0).value == RotationAbout(t, 0.0, q.x, q.y);
      RotationAboutZero(t, q.x, q.y);
    }
  }

  /** One copy's worth is the position, then the scale, then the rotation about the anchor (the origin without one). */
  lemma RepeaterAtOne(t: Trig, v: Values)
    requires Exact(t)
    ensures Same(RepeaterMatrixOf(t, {Position, Scale, Rotation, AnchorPoint}, v, 1.0),
      Mul(Mul(Translation(v.position.x, v.position.y), Scaling(v.scale.scaleX, v.scale.scaleY)),
          RotationAbout(t, v.rotation, v.anchorPoint.x, v.anchorPoint.y)))
    ensures Same(RepeaterMatrixOf(t, {Position, Scale, Rotation}, v, 1.0),
      Mul(Mul(Translation(v.position.x, v.position.y), Scaling(v.scale.scaleX, v.scale.scaleY)),
          Matrices.Rotation(t, v.rotation)))
  {
    var m1 := Translation(v.position.x, v.position.y);
    MulIdentity(m1);
    RotationAboutOrigin(t, v.rotation);
  }

  /** Whatever the amount, the repeater's rotation stage leaves the anchor point where it is. */
  lemma RepeaterRotationFixesPivot(t: Trig, present: set<Component>, v: Values, amount: real)
    requires Rotation in present
    ensures var q := Pivot(present, v);
      MapPoint(ValuesOf(RepeaterRotationStage(t, present, v, amount).value), q.x, q.y) == (q.x, q.y)
  {
    var q := Pivot(present, v);
    RotationAboutFixesPivot(t, Repeated(v.rotation, amount), q.x, q.y);
  }

  /** The property that names a component's callback. */
  function PropertyOf(c: Component): P.Property
  {
    match c
    case Opacity => P.TransformOpacity
    case StartOpacity => P.TransformStartOpacity
    case EndOpacity => P.TransformEndOpacity
    case AnchorPoint => P.TransformAnchorPoint
    case Position => P.TransformPosition
    case Scale => P.TransformScale
    case Rotation => P.TransformRotation
    case Skew => P.TransformSkew
    case SkewAngle => P.TransformSkewAngle
  }

  /** The components the transform assumes exist; the others are checked before use. */
  predicate Required(c: Component)
  {
    c in {Opacity, AnchorPoint, Position, Scale, Rotation}
  }

  /**
   * Where a callback for `p` goes: none for a property the transform does
   * not own (or an optional component that is absent, or an axis of a
   * position that is not split); a null dereference for a required
   * component that is absent.
   */
  function Route(p: P.Property, present: set<Component>, splitPosition: bool): (r: Result<Option<Target>>)
    ensures r.Err? <==> exists c :: Required(c) && c !in present && p == PropertyOf(c)
    ensures r.Err? ==> r.error == NullPointer
    ensures forall c :: r == Ok(Some(Part(c))) <==> c in present && p == PropertyOf(c)
    ensures r == Ok(Some(PositionX)) <==> splitPosition && p == P.TransformPositionX
    ensures r == Ok(Some(PositionY)) <==> splitPosition && p == P.TransformPositionY
  {
    var c :=
      if p == P.TransformAnchorPoint then Some(AnchorPoint)
      else if p == P.TransformPosition then Some(Position)
      else if p == P.TransformScale then Some(Scale)
      else if p == P.TransformRotation then Some(Rotation)
      else if p == P.TransformOpacity then Some(Opacity)
      else if p == P.TransformStartOpacity then Some(StartOpacity)
      else if p == P.TransformEndOpacity then Some(EndOpacity)
      else if p == P.TransformSkew then Some(Skew)
      else if p == P.TransformSkewAngle then Some(SkewAngle)
      else None;
    if p == P.TransformPositionX && splitPosition then Ok(Some(PositionX))
    else if p == P.TransformPositionY && splitPosition then Ok(Some(PositionY))
    else if c.None? then Ok(None)
    else if c.value in present then Ok(Some(Part(c.value)))
    else if Required(c.value) then Err(NullPointer)
    else Ok(None)
  }

  class TransformKeyframeAnimation {
    /** Which components the transform was built with. */
    const present: set<Component>
    /** Whether the position is split into separately animated axes. */
    const splitPosition: bool
    /** The nine-value scratch array for the skew matrices; only with a skew. */
    const skewValues: array?<real>
    /** The shared matrix every query resets and returns. */
    var matrix: Matrix
    /** The calls made on the components, in order. */
    var calls: seq<Call>

    ghost predicate Valid()
    {
      && (skewValues != null <==> Skew in present)
      && (skewValues != null ==> skewValues.Length == 9)
      && (splitPosition ==> Position in present)
    }

    /** A transform over the given components, with a zeroed skew array when there is a skew. */
    constructor (present: set<Component>, splitPosition: bool)
      requires splitPosition ==> Position in present
      ensures Valid()
      ensures this.present == present && this.splitPosition == splitPosition
      ensures skewValues != null ==> fresh(skewValues) && skewValues[..] == seq(9, _ => 0.0)
      ensures matrix == Identity && calls == []
    {
      this.present, this.splitPosition := present, splitPosition;
      if Skew in present {
        skewValues := new real[9](_ => 0.0);
      } else {
        skewValues := null;
      }
      matrix, calls := Identity, [];
    }

    /** Offers every component to the layer, absent ones as nothing, in the fixed order. */
    function Offers(): (r: seq<Option<Component>>)
      ensures |r| == |ORDER|
      ensures forall i :: 0 <= i < |r| ==> r[i] == if ORDER[i] in present then Some(ORDER[i]) else None
    {
      seq(|ORDER|, i requires 0 <= i < |ORDER| => if ORDER[i] in present then Some(ORDER[i]) else None)
    }

    /** Registers `listener` with every present component. */
    method AddListener(listener: nat)
      modifies this`calls
      ensures calls == old(calls) + Fanout(PresentIn(ORDER, present), Listen(listener))
    {
      Broadcast(Listen(listener));
    }

    /** Moves every present component to `progress`. */
    method SetProgress(progress: real)
      modifies this`calls
      ensures calls == old(calls) + Fanout(PresentIn(ORDER, present), ProgressTo(progress))
    {
      Broadcast(ProgressTo(progress));
    }

    /** Carries `r` to every present component, in the fixed order. */
    method Broadcast(r: Request)
      modifies this`calls
      ensures calls == old(calls) + Fanout(PresentIn(ORDER, present), r)
    {
      ghost var start := calls;
      for i := 0 to |ORDER|
        invariant calls == start + Fanout(PresentIn(ORDER[..i], present), r)
      {
        FanoutStep(ORDER, present, r, i);
        if ORDER[i] in present {
          AppendAssoc(start, Fanout(PresentIn(ORDER[..i], present), r), [CallOf(r, ORDER[i])]);
          calls := calls + [CallOf(r, ORDER[i])];
        }
      }
      assert ORDER[..|ORDER|] == ORDER;
    }

    /** Zeroes the skew array. */
    method ClearSkewValues()
      requires Valid() && skewValues != null
      modifies skewValues
      ensures forall j :: 0 <= j < skewValues.Length ==> skewValues[j] == 0.0
    {
      for i := 0 to 9
        invariant forall j :: 0 <= j < i ==> skewValues[j] == 0.0
      {
        skewValues[i] := 0.0;
      }
    }

    /** Clears the skew array and writes a rotation by the given cosine and sine into it. */
    method FillTurn(c: real, s: real)
      requires Valid() && skewValues != null
      modifies skewValues
      ensures skewValues[..] == [c, s, 0.0, -s, c, 0.0, 0.0, 0.0, 1.0]
    {
      ClearSkewValues();
      skewValues[0], skewValues[1], skewValues[3], skewValues[4], skewValues[8] := c, s, -s, c, 1.0;
    }

    /** Clears the skew array and writes a shear by `tan` into it. */
    method FillShear(tan: real)
      requires Valid() && skewValues != null
      modifies skewValues
      ensures skewValues[..] == [1.0, 0.0, 0.0, tan, 1.0, 0.0, 0.0, 0.0, 1.0]
    {
      ClearSkewValues();
      skewValues[0], skewValues[3], skewValues[4], skewValues[8] := 1.0, tan, 1.0, 1.0;
    }

    /**
     * Builds the three skew matrices through the shared array and returns
     * their product; the array is left holding the last one.
     */
    method ApplySkew(t: Trig, v: Values) returns (k: Matrix)
      requires Valid() && Skew in present
      modifies skewValues
      ensures k == SkewStage(t, present, v).value
      ensures var (c, s) := SkewCosSin(t, SkewAngle in present, v.skewAngle);
        skewValues[..] == [c, -s, 0.0, s, c, 0.0, 0.0, 0.0, 1.0]
    {
      var (c, s) := SkewCosSin(t, SkewAngle in present, v.skewAngle);
      var tan := t.tanDeg(v.skew);
      FillTurn(c, s);
      var m1 := FromElements(skewValues[..]);
      FillShear(tan);
      var m2 := FromElements(skewValues[..]);
      FillTurn(c, -s);
      var m3 := FromElements(skewValues[..]);
      assert --s == s;
      m2 := Mul(m2, m1);
      m3 := Mul(m3, m2);
      k := m3;
    }

    /** Resets the shared matrix and composes the stages that do something, in the fixed order. */
    method GetMatrix(t: Trig, v: Values) returns (r: Matrix)
      requires Valid()
      modifies this`matrix, skewValues
      ensures r == matrix == MatrixOf(t, present, v)
    {
      matrix := Identity;
      if Position in present && (v.position.x != 0.0 || v.position.y != 0.0) {
        matrix := Mul(matrix, Translation(v.position.x, v.position.y));
      }
      if Rotation in present && v.rotation != 0.0 {
        matrix := Mul(matrix, Matrices.Rotation(t, v.rotation));
      }
      if Skew in present {
        var k := ApplySkew(t, v);
        matrix := Mul(matrix, k);
      }
      if Scale in present && (v.scale.scaleX != 1.0 || v.scale.scaleY != 1.0) {
        matrix := Mul(matrix, Scaling(v.scale.scaleX, v.scale.scaleY));
      }
      if AnchorPoint in present && (v.anchorPoint.x != 0.0 || v.anchorPoint.y != 0.0) {
        matrix := Mul(matrix, Translation(-v.anchorPoint.x, -v.anchorPoint.y));
      }
      r := matrix;
    }

    /** Resets the shared matrix to the transform of `amount` repeater copies. */
    method GetMatrixForRepeater(t: Trig, v: Values, amount: real) returns (r: Matrix)
      modifies this`matrix
      ensures r == matrix == RepeaterMatrixOf(t, present, v, amount)
    {
      matrix := Identity;
      if Position in present {
        matrix := Mul(matrix, Translation(Repeated(v.position.x, amount), Repeated(v.position.y, amount)));
      }
      if Scale in present {
        matrix := Mul(matrix, Scaling(t.pow(v.scale.scaleX, amount), t.pow(v.scale.scaleY, amount)));
      }
      if Rotation in present {
        var px := if AnchorPoint in present then v.anchorPoint.x else 0.0;
        var py := if AnchorPoint in present then v.anchorPoint.y else 0.0;
        matrix := Mul(matrix, RotationAbout(t, Repeated(v.rotation, amount), px, py));
      }
      r := matrix;
    }

    /**
     * Hands `callback` to the component `p` names and answers whether it
     * was taken; a required component that is absent is dereferenced.
     */
    method ApplyValueCallback(p: P.Property, callback: object?) returns (r: Result<bool>)
      requires Valid()
      modifies this`calls
      ensures r.Err? <==> Route(p, present, splitPosition).Err?
      ensures r == Ok(true) <==> Route(p, present, splitPosition).Ok? && Route(p, present, splitPosition).value.Some?
      ensures r == Ok(true) ==> calls == old(calls) + [SetCallbackOf(Route(p, present, splitPosition).value.value, callback)]
      ensures r != Ok(true) ==> calls == old(calls)
    {
      var route := Route(p, present, splitPosition);
      match route
      case Err(e) =>
        r := Err(e);
      case Ok(None) =>
        r := Ok(false);
      case Ok(Some(target)) =>
        calls := calls + [SetCallbackOf(target, callback)];
        r := Ok(true);
    }
  }
}
