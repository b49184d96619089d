/**
 * The contents of a shape layer as the groups that hold them see them: each
 * child is known by an identity and by which of the content roles it takes
 * (it yields a path, it draws, it absorbs its neighbours, it trims paths).
 * A path is the sequence of sub-paths added to it, each under the matrix
 * it was added with.
 */
module Contents {
  import opened Wrappers
  import opened Matrices

  /** Whether a content is a trim path, and how it trims several shapes. */
  datatype Trim = NoTrim | TrimSimultaneously | TrimIndividually

  /** A child content and the roles it takes. */
  datatype Content = Content(id: nat, isPath: bool, isDrawing: bool, isGreedy: bool, trim: Trim)

  /** One outline of a path, from the shape `shape`, placed by `matrix`. */
  datatype SubPath = SubPath(shape: nat, matrix: Matrix)

  type Path = seq<SubPath>

  /** `p` added under `m`: every sub-path is placed by `m` after its own matrix. */
  function Transformed(p: Path, m: Matrix): (r: Path)
    ensures |r| == |p|
    ensures forall i :: 0 <= i < |p| ==> r[i] == SubPath(p[i].shape, Mul(m, p[i].matrix))
  {
    if p == [] then [] else [SubPath(p[0].shape, Mul(m, p[0].matrix))] + Transformed(p[1..], m)
  }

  /** Adding a path under a matrix that does nothing leaves every sub-path where it was. */
  lemma TransformedIdentity(p: Path, i: nat)
    requires i < |p|
    ensures Same(Transformed(p, Identity)[i].matrix, p[i].matrix)
  {
    MulIdentity(p[i].matrix);
  }

  /** The path contents of `s`, in order. */
  function Paths(s: seq<Content>): seq<Content>
  {
    if s == [] then [] else (if s[0].isPath then [s[0]] else []) + Paths(s[1..])
  }

  /** The contents of `s` that are not paths, in order. */
  function NonPaths(s: seq<Content>): seq<Content>
  {
    if s == [] then [] else (if s[0].isPath then [] else [s[0]]) + NonPaths(s[1..])
  }

  /** Exactly the path contents are kept, and nothing else. */
  lemma {:induction false} PathsMembers(s: seq<Content>, c: Content)
    ensures c in Paths(s) <==> c in s && c.isPath
    ensures c in NonPaths(s) <==> c in s && !c.isPath
    ensures |Paths(s)| + |NonPaths(s)| == |s|
  {
    if s != [] {
      PathsMembers(s[1..], c);
      assert s == [s[0]] + s[1..];
    }
  }

  lemma {:induction false} PathsAppend(a: seq<Content>, b: seq<Content>)
    ensures Paths(a + b) == Paths(a) + Paths(b)
    ensures NonPaths(a + b) == NonPaths(a) + NonPaths(b)
  {
    if a != [] {
      assert (a + b)[1..] == a[1..] + b;
      PathsAppend(a[1..], b);
    } else {
      assert a + b == b;
    }
  }

  /** The drawing contents of `s`, in order. */
  function Drawings(s: seq<Content>): seq<Content>
  {
    if s == [] then [] else (if s[0].isDrawing then [s[0]] else []) + Drawings(s[1..])
  }

  /** `s` back to front. */
  function Reversed<X>(s: seq<X>): (r: seq<X>)
    ensures |r| == |s|
  {
    if s == [] then [] else Reversed(s[1..]) + [s[0]]
  }

  lemma {:induction false} ReversedAt<X>(s: seq<X>, i: nat)
    requires i < |s|
    ensures Reversed(s)[i] == s[|s| - 1 - i]
  {
    if i < |s| - 1 {
      ReversedAt(s[1..], i);
    }
  }

  lemma {:induction false} ReversedAppend<X>(a: seq<X>, b: seq<X>)
    ensures Reversed(a + b) == Reversed(b) + Reversed(a)
  {
    if a == [] {
      assert a + b == b;
    } else {
      assert (a + b)[1..] == a[1..] + b;
      ReversedAppend(a[1..], b);
    }
  }

  /** The last position of `x` in `s`, if it is there. */
  function LastIndex<X(==)>(s: seq<X>, x: X): (r: Option<nat>)
    ensures r.None? <==> x !in s
    ensures r.Some? ==> r.value < |s| && s[r.value] == x && forall k :: r.value < k < |s| ==> s[k] != x
  {
    if s == [] then None
    else if s[|s| - 1] == x then Some(|s| - 1)
    else LastIndex(s[..|s| - 1], x)
  }
}
