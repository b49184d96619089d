/**
 * A merge-paths content: when its group is built it absorbs every path
 * content listed before it, taking them out of the group's list; its own
 * path is then the union of theirs, in MERGE mode only.
 */
module MergePaths {
  import opened Wrappers
  import opened Contents

  /** How the absorbed paths are combined. Only MERGE is carried out. */
  datatype MergeMode = Merge | Add | Subtract | Intersect | ExcludeIntersections

  /** What a merge content standing at `self` takes out of `contents`: the path contents before its last occurrence, nearest first. */
  function Absorbed(contents: seq<Content>, self: Content): seq<Content>
  {
    match LastIndex(contents, self)
    case None => []
    case Some(j) => Reversed(Paths(contents[..j]))
  }

  /** What stays in `contents`: the non-path contents before `self`, then `self` and everything after it. */
  function Remaining(contents: seq<Content>, self: Content): seq<Content>
  {
    match LastIndex(contents, self)
    case None => contents
    case Some(j) => NonPaths(contents[..j]) + contents[j..]
  }

  /** Absorption moves contents from one list to the other: nothing is lost and nothing is duplicated. */
  lemma AbsorbMoves(contents: seq<Content>, self: Content)
    ensures multiset(Remaining(contents, self)) + multiset(Absorbed(contents, self)) == multiset(contents)
  {
    match LastIndex(contents, self)
    case None =>
    case Some(j) =>
      var before, after := contents[..j], contents[j..];
      assert Remaining(contents, self) == NonPaths(before) + after;
      assert Absorbed(contents, self) == Reversed(Paths(before));
      SplitMultiset(before);
      ReversedMultiset(Paths(before));
      assert multiset(Reversed(Paths(before))) == multiset(Paths(before));
      assert contents == before + after;
      assert multiset(contents) == multiset(before) + multiset(after);
      assert multiset(NonPaths(before) + after) == multiset(NonPaths(before)) + multiset(after);
  }

  /** Only path contents listed before the merge content are absorbed. */
  lemma AbsorbedArePaths(contents: seq<Content>, self: Content, c: Content)
    ensures c in Absorbed(contents, self) <==> (self in contents && c.isPath && c in contents[..LastIndex(contents, self).value])
  {
    match LastIndex(contents, self)
    case None =>
    case Some(j) =>
      ReversedMultiset(Paths(contents[..j]));
      assert c in Reversed(Paths(contents[..j])) <==> c in multiset(Reversed(Paths(contents[..j])));
      PathsMembers(contents[..j], c);
  }

  /** No path content is left before the merge content, and what follows it is untouched. */
  lemma RemainingShape(contents: seq<Content>, self: Content)
    requires self in contents
    ensures var j := LastIndex(contents, self).value;
      var k := |Remaining(contents, self)| - (|contents| - j);
      && 0 <= k
      && Remaining(contents, self)[k..] == contents[j..]
      && Paths(Remaining(contents, self)[..k]) == []
  {
    var j := LastIndex(contents, self).value;
    var r := Remaining(contents, self);
    var k := |NonPaths(contents[..j])|;
    assert r[..k] == NonPaths(contents[..j]) && r[k..] == contents[j..];
    NoPathsLeft(contents[..j]);
  }

  lemma {:induction false} NoPathsLeft(s: seq<Content>)
    ensures Paths(NonPaths(s)) == []
  {
    if s != [] {
      NoPathsLeft(s[1..]);
      PathsAppend(if s[0].isPath then [] else [s[0]], NonPaths(s[1..]));
    }
  }

  lemma {:induction false} SplitMultiset(s: seq<Content>)
    ensures multiset(NonPaths(s)) + multiset(Paths(s)) == multiset(s)
  {
    if s != [] {
      SplitMultiset(s[1..]);
      assert s == [s[0]] + s[1..];
    }
  }

  lemma {:induction false} ReversedMultiset(s: seq<Content>)
    ensures multiset(Reversed(s)) == multiset(s)
  {
    if s != [] {
      ReversedMultiset(s[1..]);
      assert s == [s[0]] + s[1..];
    }
  }

  /** One step back of the absorbing iterator: the content at `pos` joins the paths or the kept contents. */
  lemma StepBack(contents: seq<Content>, pos: nat, j: nat)
    requires pos < j <= |contents|
    ensures contents[pos..j] == [contents[pos]] + contents[pos + 1..j]
    ensures var c := contents[pos];
      var list := contents[..pos + 1] + NonPaths(contents[pos + 1..j]) + contents[j..];
      && list[pos] == c
      && Reversed(Paths(contents[pos..j])) == Reversed(Paths(contents[pos + 1..j])) + (if c.isPath then [c] else [])
      && (c.isPath ==> list[..pos] + list[pos + 1..] == contents[..pos] + NonPaths(contents[pos..j]) + contents[j..])
      && (!c.isPath ==> list == contents[..pos] + NonPaths(contents[pos..j]) + contents[j..])
  {
    var c := contents[pos];
    var rest := contents[pos + 1..j];
    assert contents[pos..j] == [c] + rest;
    assert ([c] + rest)[1..] == rest;
    assert Paths([c] + rest) == (if c.isPath then [c] else []) + Paths(rest);
    if c.isPath {
      assert Reversed([c] + Paths(rest)) == Reversed(Paths(rest)) + [c] by {
        assert ([c] + Paths(rest))[1..] == Paths(rest);
      }
    } else {
      assert [] + Paths(rest) == Paths(rest);
    }
    assert contents[..pos + 1] == contents[..pos] + [c];
    var list := contents[..pos + 1] + NonPaths(rest) + contents[j..];
    if c.isPath {
      assert list[..pos] == contents[..pos];
      assert list[pos + 1..] == NonPaths(rest) + contents[j..];
    }
  }

  /** A path made of the given paths one after another. */
  function Joined(ps: seq<Path>): Path
  {
    if ps == [] then [] else Joined(ps[..|ps| - 1]) + ps[|ps| - 1]
  }

  lemma {:induction false} JoinedLength(ps: seq<Path>, n: nat)
    requires forall i :: 0 <= i < |ps| ==> |ps[i]| == n
    ensures |Joined(ps)| == |ps| * n
  {
    if ps != [] {
      var m := |ps| - 1;
      JoinedLength(ps[..m], n);
      assert |Joined(ps)| == m * n + n;
    }
  }

  /** A call the merge content makes on an absorbed path. */
  datatype MergeCall = SetContentsOf(target: Content, before: seq<Content>, after: seq<Content>)

  /** `setContents(before, after)` handed on to each of `targets`, in order. */
  function Forwarded(targets: seq<Content>, before: seq<Content>, after: seq<Content>): (r: seq<MergeCall>)
    ensures |r| == |targets|
  {
    if targets == [] then [] else Forwarded(targets[..|targets| - 1], before, after) + [SetContentsOf(targets[|targets| - 1], before, after)]
  }

  lemma {:induction false} ForwardedEach(targets: seq<Content>, before: seq<Content>, after: seq<Content>, i: nat)
    requires i < |targets|
    ensures Forwarded(targets, before, after)[i] == SetContentsOf(targets[i], before, after)
  {
    if i < |targets| - 1 {
      ForwardedEach(targets[..|targets| - 1], before, after, i);
    }
  }

  class MergePathsContent {
    /** The entry that stands for this content in its group's list. */
    const self: Content
    const hidden: bool
    const mode: MergeMode
    /** The absorbed path contents, nearest first. */
    var pathContents: seq<Content>
    var calls: seq<MergeCall>

    constructor (self: Content, hidden: bool, mode: MergeMode)
      ensures this.self == self && this.hidden == hidden && this.mode == mode
      ensures pathContents == [] && calls == []
    {
      this.self, this.hidden, this.mode := self, hidden, mode;
      pathContents, calls := [], [];
    }

    /**
     * Walks a list iterator back from the end of `contents` to this content,
     * then on to the front, removing every path content it passes and
     * appending it to `pathContents`. Returns what is left of the list.
     */
    method AbsorbContent(contents: seq<Content>) returns (list: seq<Content>)
      modifies this`pathContents
      ensures list == Remaining(contents, self)
      ensures pathContents == old(pathContents) + Absorbed(contents, self)
    {
      var j := FindSelf(contents);
      list := contents;
      var pos := j;
      while pos > 0
        invariant 0 <= pos <= j <= |contents|
        invariant list == contents[..pos] + NonPaths(contents[pos..j]) + contents[j..]
        invariant pathContents == old(pathContents) + Reversed(Paths(contents[pos..j]))
      {
        pos := pos - 1;
        list := AbsorbAt(contents, pos, j, list, old(pathContents));
      }
      assert contents[..0] == [] && contents[0..j] == contents[..j];
      if LastIndex(contents, self).None? {
        assert contents[j..] == contents;
      }
    }

    /** One step back: the content at `pos` moves from the list to the end of `pathContents` when it is a path. */
    method AbsorbAt(contents: seq<Content>, pos: nat, j: nat, list: seq<Content>, ghost start: seq<Content>) returns (rest: seq<Content>)
      requires pos < j <= |contents|
      requires list == contents[..pos + 1] + NonPaths(contents[pos + 1..j]) + contents[j..]
      requires pathContents == start + Reversed(Paths(contents[pos + 1..j]))
      modifies this`pathContents
      ensures rest == contents[..pos] + NonPaths(contents[pos..j]) + contents[j..]
      ensures pathContents == start + Reversed(Paths(contents[pos..j]))
    {
      StepBack(contents, pos, j);
      rest := list;
      if list[pos].isPath {
        ghost var absorbed := Reversed(Paths(contents[pos + 1..j]));
        pathContents := pathContents + [list[pos]];
        assert pathContents == start + (absorbed + [contents[pos]]);
        rest := list[..pos] + list[pos + 1..];
      }
    }

    /** Where the iterator stops on its way back to this content: at its last occurrence, or at the front when it is absent. */
    method FindSelf(contents: seq<Content>) returns (pos: nat)
      ensures pos <= |contents|
      ensures LastIndex(contents, self).Some? ==> pos == LastIndex(contents, self).value
      ensures LastIndex(contents, self).None? ==> pos == 0
    {
      pos := |contents|;
      var found := false;
      while pos > 0 && !found
        invariant 0 <= pos <= |contents|
        invariant !found ==> forall k :: pos <= k < |contents| ==> contents[k] != self
        invariant found ==> pos < |contents| && contents[pos] == self && forall k :: pos < k < |contents| ==> contents[k] != self
      {
        pos := pos - 1;
        found := contents[pos] == self;
      }
    }

    /** Hands `setContents` on to every absorbed path, unchanged. */
    method SetContents(before: seq<Content>, after: seq<Content>)
      modifies this`calls
      ensures calls == old(calls) + Forwarded(pathContents, before, after)
    {
      for i := 0 to |pathContents|
        invariant calls == old(calls) + Forwarded(pathContents[..i], before, after)
      {
        assert pathContents[..i + 1][..i] == pathContents[..i];
        calls := calls + [SetContentsOf(pathContents[i], before, after)];
      }
      assert pathContents[..|pathContents|] == pathContents;
    }

    /**
     * The merged path, given the path each absorbed content reports: empty
     * when hidden or for any mode but MERGE, which adds them in order.
     */
    method GetPath(childPaths: seq<Path>) returns (path: Path)
      requires |childPaths| == |pathContents|
      ensures path == if hidden || mode != Merge then [] else Joined(childPaths)
    {
      path := [];
      if hidden {
        return;
      }
      if mode == Merge {
        for i := 0 to |childPaths|
          invariant path == Joined(childPaths[..i])
        {
          assert childPaths[..i + 1][..i] == childPaths[..i];
          path := path + childPaths[i];
        }
        assert childPaths[..|childPaths|] == childPaths;
      }
    }
  }
}
