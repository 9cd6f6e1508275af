/**
 * The operand-ownership compatibility map: for one use, the ownership kinds
 * the operand may carry and, for each, whether the use ends its lifetime.
 *
 * `OperandOwnershipKindMap` is declared in a header that is not part of this
 * model. It keeps at most one constraint per kind; `allLive()` accepts every
 * kind as a non-ending use and the default-constructed map accepts nothing.
 */
module KindMaps {
  import opened OwnershipKinds

  datatype KindMap = KindMap(entries: map<OwnershipKind, LifetimeConstraint>)
  {
    /** Whether a value of kind `k` may be used here. */
    predicate CanAcceptKind(k: OwnershipKind)
    {
      k in entries
    }

    /** The lifetime constraint a use of kind `k` imposes. */
    function GetLifetimeConstraint(k: OwnershipKind): LifetimeConstraint
      requires CanAcceptKind(k)
    {
      entries[k]
    }

    /** Some accepted kind is consumed by this use. */
    predicate HasLifetimeEndingUse()
    {
      exists k :: CanAcceptKind(k) && GetLifetimeConstraint(k) == LifetimeEnding
    }
  }

  /** The default-constructed map: rejects every kind. */
  function EmptyMap(): (m: KindMap)
    ensures forall k :: !m.CanAcceptKind(k)
  {
    KindMap(map[])
  }

  /** `allLive()`: every kind is accepted and no use ends a lifetime. */
  function AllLive(): (m: KindMap)
    ensures forall k :: m.CanAcceptKind(k) && m.GetLifetimeConstraint(k) == NonLifetimeEnding
  {
    var m := KindMap(map[None := NonLifetimeEnding, Unowned := NonLifetimeEnding,
                         Owned := NonLifetimeEnding, Guaranteed := NonLifetimeEnding]);
    assert forall k: OwnershipKind :: k in m.entries <== k.None? || k.Unowned? || k.Owned? || k.Guaranteed?;
    m
  }

  /** `compatibilityMap(kind, constraint)`: exactly one accepted kind. */
  function CompatibilityMap(k: OwnershipKind, c: LifetimeConstraint): (m: KindMap)
    ensures forall j :: m.CanAcceptKind(j) <==> j == k
    ensures m.GetLifetimeConstraint(k) == c
  {
    KindMap(map[k := c])
  }

  /**
   * `addCompatibilityConstraint`: accept `k` with constraint `c` as well. The
   * map never holds two different constraints for one kind.
   */
  function AddCompatibilityConstraint(m: KindMap, k: OwnershipKind, c: LifetimeConstraint): (r: KindMap)
    requires m.CanAcceptKind(k) ==> m.GetLifetimeConstraint(k) == c
    ensures forall j :: r.CanAcceptKind(j) <==> m.CanAcceptKind(j) || j == k
    ensures r.GetLifetimeConstraint(k) == c
    ensures forall j :: m.CanAcceptKind(j) ==> r.GetLifetimeConstraint(j) == m.GetLifetimeConstraint(j)
  {
    KindMap(m.entries[k := c])
  }

  /** No kind is listed twice with different constraints. */
  predicate ConsistentConstraints(pairs: seq<(OwnershipKind, LifetimeConstraint)>)
  {
    forall i, j :: 0 <= i < |pairs| && 0 <= j < |pairs| && pairs[i].0 == pairs[j].0 ==> pairs[i].1 == pairs[j].1
  }

  /** `compatibilityMap({{kind, constraint}, ...})`: the map holding exactly the listed pairs. */
  function CompatibilityMapOf(pairs: seq<(OwnershipKind, LifetimeConstraint)>): (m: KindMap)
    requires ConsistentConstraints(pairs)
    ensures forall k :: m.CanAcceptKind(k) <==> exists i :: 0 <= i < |pairs| && pairs[i].0 == k
    ensures forall i :: 0 <= i < |pairs| ==> m.GetLifetimeConstraint(pairs[i].0) == pairs[i].1
  {
    if |pairs| == 0 then EmptyMap()
    else
      var init := pairs[..|pairs| - 1];
      var last := pairs[|pairs| - 1];
      assert forall i :: 0 <= i < |init| ==> init[i] == pairs[i];
      AddCompatibilityConstraint(CompatibilityMapOf(init), last.0, last.1)
  }

  /** The map a forwarded value of kind `k` needs: `k` with its forwarding constraint. */
  function ForwardingMap(k: OwnershipKind): (m: KindMap)
    ensures forall j :: m.CanAcceptKind(j) <==> j == k
    ensures m.GetLifetimeConstraint(k) == LifetimeEnding <==> k == Owned
  {
    CompatibilityMap(k, ForwardingLifetimeConstraint(k))
  }

  /** One-entry forwarding maps differ from each other and from the other two shapes. */
  lemma ForwardingMapsAreDistinct()
    ensures forall k, k' :: ForwardingMap(k) == ForwardingMap(k') ==> k == k'
    ensures forall k :: ForwardingMap(k) != EmptyMap() && ForwardingMap(k) != AllLive()
  {
    forall k, k' | ForwardingMap(k) == ForwardingMap(k')
      ensures k == k'
    {
      assert ForwardingMap(k').CanAcceptKind(k);
    }
    forall k
      ensures ForwardingMap(k) != EmptyMap() && ForwardingMap(k) != AllLive()
    {
      ShapesDiffer(k, ForwardingLifetimeConstraint(k));
    }
  }

  /** Filling an empty map with one constraint builds the one-entry map. */
  lemma AddToEmptyIsCompatibilityMap(k: OwnershipKind, c: LifetimeConstraint)
    ensures AddCompatibilityConstraint(EmptyMap(), k, c) == CompatibilityMap(k, c)
  {
  }

  /** The three shapes are distinct: the empty map, `allLive()` and a one-entry map. */
  lemma ShapesDiffer(k: OwnershipKind, c: LifetimeConstraint)
    ensures EmptyMap() != AllLive()
    ensures CompatibilityMap(k, c) != EmptyMap()
    ensures CompatibilityMap(k, c) != AllLive()
  {
    assert AllLive().CanAcceptKind(None) && !EmptyMap().CanAcceptKind(None);
    assert CompatibilityMap(k, c).CanAcceptKind(k);
    var other := if k == Owned then Guaranteed else Owned;
    assert !CompatibilityMap(k, c).CanAcceptKind(other) && AllLive().CanAcceptKind(other);
  }
}
