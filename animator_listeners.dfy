/**
 * The three listener sets of the frame clock (update, state-change and
 * repeat listeners) and the fan-out of each notification to one of them.
 *
 * A listener set is a copy-on-write array set: it keeps insertion order and
 * holds each listener at most once, so it is modelled as a duplicate-free
 * sequence. Listeners are opaque identities; what the model records is the
 * sequence of callbacks the animator makes on them.
 */
module AnimatorListeners {

  type ListenerId = nat

  /** The callback a notification invokes on each listener it reaches. */
  datatype Kind = OnStart | OnEnd | OnCancel | OnRepeat | OnUpdate

  /** One callback made on one listener (`onUpdate` always receives the fraction 0). */
  datatype Callback = Call(kind: Kind, listener: ListenerId)

  predicate Distinct(s: seq<ListenerId>)
  {
    forall i, j :: 0 <= i < j < |s| ==> s[i] != s[j]
  }

  /** `Set.add` on an insertion-ordered set: appends the listener unless it is present. */
  function Insert(s: seq<ListenerId>, x: ListenerId): (r: seq<ListenerId>)
    ensures x in r
    ensures forall y :: y in r <==> y in s || y == x
    ensures x in s ==> r == s
    ensures Distinct(s) ==> Distinct(r)
  {
    if x in s then s else s + [x]
  }

  /** `Set.remove`: drops the listener and keeps the others in order. */
  function Remove(s: seq<ListenerId>, x: ListenerId): (r: seq<ListenerId>)
    ensures forall y :: y in r <==> y in s && y != x
    ensures |r| <= |s|
    ensures Distinct(s) ==> Distinct(r)
    ensures x !in s ==> r == s
  {
    if s == [] then []
    else if s[0] == x then Remove(s[1..], x)
    else
      var rest := Remove(s[1..], x);
      assert Distinct(s) ==> s[0] !in s[1..] && Distinct(s[1..]) by {
        if Distinct(s) {
          forall i | 0 <= i < |s[1..]| ensures s[1..][i] != s[0] { assert s[1..][i] == s[i + 1]; }
        }
      }
      if Distinct(s) then DistinctCons(s[0], rest); [s[0]] + rest else [s[0]] + rest
  }

  lemma DistinctCons(a: ListenerId, r: seq<ListenerId>)
    requires a !in r && Distinct(r)
    ensures Distinct([a] + r)
  {
    var t := [a] + r;
    forall i, j | 0 <= i < j < |t| ensures t[i] != t[j] {
      if i == 0 { assert t[j] == r[j - 1]; } else { assert t[i] == r[i - 1] && t[j] == r[j - 1]; }
    }
  }

  /** The callbacks made when a notification of kind k walks the set ls. */
  function Fanout(ls: seq<ListenerId>, k: Kind): (r: seq<Callback>)
    ensures |r| == |ls|
    ensures forall i :: 0 <= i < |ls| ==> r[i] == Call(k, ls[i])
  {
    if ls == [] then [] else Fanout(ls[..|ls| - 1], k) + [Call(k, ls[|ls| - 1])]
  }

  /** Removing a listener just added to a set that lacked it restores the set. */
  lemma {:induction false} RemoveUndoesInsert(s: seq<ListenerId>, x: ListenerId)
    requires x !in s
    ensures Remove(Insert(s, x), x) == s
  {
    if s != [] {
      assert s + [x] == [s[0]] + (s[1..] + [x]);
      RemoveUndoesInsert(s[1..], x);
    }
  }

  /** Dropping the last listener keeps a set duplicate-free, and the last one is not among the rest. */
  lemma DistinctSnoc(ls: seq<ListenerId>)
    requires Distinct(ls) && ls != []
    ensures Distinct(ls[..|ls| - 1]) && ls[|ls| - 1] !in ls[..|ls| - 1]
  {
    var init := ls[..|ls| - 1];
    forall i | 0 <= i < |init| ensures init[i] != ls[|ls| - 1] { assert init[i] == ls[i]; }
  }

  /** Over a duplicate-free set, every member receives exactly one callback and nobody else any. */
  lemma {:induction false} FanoutOncePerListener(ls: seq<ListenerId>, k: Kind, l: ListenerId)
    requires Distinct(ls)
    ensures multiset(Fanout(ls, k))[Call(k, l)] == if l in ls then 1 else 0
  {
    if ls != [] {
      var init, last := ls[..|ls| - 1], ls[|ls| - 1];
      DistinctSnoc(ls);
      FanoutOncePerListener(init, k, l);
      assert Fanout(ls, k) == Fanout(init, k) + [Call(k, last)];
      assert multiset(Fanout(ls, k)) == multiset(Fanout(init, k)) + multiset{Call(k, last)};
      assert l in ls <==> l in init || l == last by { assert ls == init + [last]; }
    }
  }

  /** The listener sets of one animator and the record of every callback made on them. */
  class Notifier {
    var updateListeners: seq<ListenerId>
    var stateListeners: seq<ListenerId>
    var repeatListeners: seq<ListenerId>
    var calls: seq<Callback>

    ghost predicate Valid()
      reads this`updateListeners, this`stateListeners, this`repeatListeners
    {
      Distinct(updateListeners) && Distinct(stateListeners) && Distinct(repeatListeners)
    }

    constructor ()
      ensures Valid()
      ensures updateListeners == [] && stateListeners == [] && repeatListeners == []
      ensures calls == []
    {
      updateListeners, stateListeners, repeatListeners := [], [], [];
      calls := [];
    }

    method AddUpdateListener(l: ListenerId)
      requires Valid()
      modifies this`updateListeners
      ensures Valid()
      ensures updateListeners == Insert(old(updateListeners), l)
    {
      updateListeners := Insert(updateListeners, l);
    }

    method RemoveUpdateListener(l: ListenerId)
      requires Valid()
      modifies this`updateListeners
      ensures Valid()
      ensures updateListeners == Remove(old(updateListeners), l)
    {
      updateListeners := Remove(updateListeners, l);
    }

    method RemoveAllUpdateListeners()
      requires Valid()
      modifies this`updateListeners
      ensures Valid() && updateListeners == []
    {
      updateListeners := [];
    }

    method AddListener(l: ListenerId)
      requires Valid()
      modifies this`stateListeners
      ensures Valid()
      ensures stateListeners == Insert(old(stateListeners), l)
    {
      stateListeners := Insert(stateListeners, l);
    }

    method RemoveListener(l: ListenerId)
      requires Valid()
      modifies this`stateListeners
      ensures Valid()
      ensures stateListeners == Remove(old(stateListeners), l)
    {
      stateListeners := Remove(stateListeners, l);
    }

    method RemoveAllListeners()
      requires Valid()
      modifies this`stateListeners
      ensures Valid() && stateListeners == []
    {
      stateListeners := [];
    }

    method AddRepeatListener(l: ListenerId)
      requires Valid()
      modifies this`repeatListeners
      ensures Valid()
      ensures repeatListeners == Insert(old(repeatListeners), l)
    {
      repeatListeners := Insert(repeatListeners, l);
    }

    method RemoveRepeatListener(l: ListenerId)
      requires Valid()
      modifies this`repeatListeners
      ensures Valid()
      ensures repeatListeners == Remove(old(repeatListeners), l)
    {
      repeatListeners := Remove(repeatListeners, l);
    }

    method RemoveRepeatListeners()
      requires Valid()
      modifies this`repeatListeners
      ensures Valid() && repeatListeners == []
    {
      repeatListeners := [];
    }

    /** Walks one listener set in order, calling k on each member. */
    method Walk(ls: seq<ListenerId>, k: Kind)
      modifies this`calls
      ensures calls == old(calls) + Fanout(ls, k)
    {
      var i := 0;
      while i < |ls|
        invariant 0 <= i <= |ls|
        invariant calls == old(calls) + Fanout(ls[..i], k)
      {
        assert ls[..i + 1][..i] == ls[..i];
        calls := calls + [Call(k, ls[i])];
        i := i + 1;
      }
      assert ls[..|ls|] == ls;
    }

    /** `notifyStart`: the direction flag is accepted and not used. */
    method NotifyStart(isReverse: bool)
      modifies this`calls
      ensures calls == old(calls) + Fanout(stateListeners, OnStart)
    {
      Walk(stateListeners, OnStart);
    }

    method NotifyRepeat()
      modifies this`calls
      ensures calls == old(calls) + Fanout(repeatListeners, OnRepeat)
    {
      Walk(repeatListeners, OnRepeat);
    }

    /** `notifyEnd`: the direction flag is accepted and not used. */
    method NotifyEnd(isReverse: bool)
      modifies this`calls
      ensures calls == old(calls) + Fanout(stateListeners, OnEnd)
    {
      Walk(stateListeners, OnEnd);
    }

    method NotifyCancel()
      modifies this`calls
      ensures calls == old(calls) + Fanout(stateListeners, OnCancel)
    {
      Walk(stateListeners, OnCancel);
    }

    method NotifyUpdate()
      modifies this`calls
      ensures calls == old(calls) + Fanout(updateListeners, OnUpdate)
    {
      Walk(updateListeners, OnUpdate);
    }
  }
}
