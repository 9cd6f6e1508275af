/**
 * Value ownership kinds, use-lifetime constraints and the merge of ownership
 * kinds that the operand-ownership classifier relies on.
 *
 * `ValueOwnershipKind::merge` and `getForwardingLifetimeConstraint` are
 * declared in headers that are not part of this model; the definitions below
 * are modelling assumptions about them, and the lemmas prove properties of
 * these definitions.
 */
module OwnershipKinds {

  /** The ownership discipline carried by an IR value. */
  datatype OwnershipKind = None | Unowned | Owned | Guaranteed

  /** Whether accepting a value at a use ends the value's lifetime. */
  datatype LifetimeConstraint = LifetimeEnding | NonLifetimeEnding

  /** An optional value; `Nothing` is the failed merge (not the kind `None`). */
  datatype Option<T> = Nothing | Some(value: T)

  /** The ownership order: `None` lies below every kind, distinct other kinds are unrelated. */
  predicate Below(a: OwnershipKind, b: OwnershipKind)
  {
    a == None || a == b
  }

  /** Two kinds are compatible when they have a common upper bound. */
  predicate IsCompatibleWith(a: OwnershipKind, b: OwnershipKind)
    ensures IsCompatibleWith(a, b) <==> exists u :: Below(a, u) && Below(b, u)
  {
    // the larger of the two is the witness upper bound
    var upper := if a == None then b else a;
    assert (a == None || b == None || a == b) ==> Below(a, upper) && Below(b, upper);
    a == None || b == None || a == b
  }

  /**
   * The default lifetime constraint of a kind forwarded through an
   * instruction: only an owned value is consumed.
   */
  function ForwardingLifetimeConstraint(k: OwnershipKind): (c: LifetimeConstraint)
    ensures c == LifetimeEnding <==> k == Owned
  {
    if k == Owned then LifetimeEnding else NonLifetimeEnding
  }

  /** Binary merge: the least upper bound of two kinds, `Nothing` when there is none. */
  function Merge(a: OwnershipKind, b: OwnershipKind): (r: Option<OwnershipKind>)
    ensures r.Some? <==> IsCompatibleWith(a, b)
    ensures r.Some? ==> Below(a, r.value) && Below(b, r.value)
    ensures r.Some? ==> forall u :: Below(a, u) && Below(b, u) ==> Below(r.value, u)
  {
    if a == None then Some(b)
    else if b == None then Some(a)
    else if a == b then Some(a)
    else Nothing
  }

  /** One accumulation step: a failure stays a failure, an absent entry is skipped. */
  function MergeStep(acc: Option<OwnershipKind>, x: Option<OwnershipKind>): Option<OwnershipKind>
  {
    if acc.Nothing? then Nothing
    else if x.Nothing? then acc
    else Merge(acc.value, x.value)
  }

  /**
   * Merge of a range of optional kinds, folded from the left starting at
   * `None`; absent entries (type-dependent operands) are skipped.
   */
  function MergeAll(s: seq<Option<OwnershipKind>>): (r: Option<OwnershipKind>)
    ensures r.Some? ==> r.value == None || Some(r.value) in s
  {
    if |s| == 0 then Some(None)
    else MergeStep(MergeAll(s[..|s| - 1]), s[|s| - 1])
  }

  /** `k` is the least upper bound of the kinds present in `s`. */
  ghost predicate IsJoin(s: seq<Option<OwnershipKind>>, k: OwnershipKind)
  {
    && (forall x :: Some(x) in s ==> Below(x, k))
    && (k == None || Some(k) in s)
  }

  /** Two kinds present in `s` have no common upper bound. */
  ghost predicate HasConflict(s: seq<Option<OwnershipKind>>)
  {
    exists a, b :: Some(a) in s && Some(b) in s && !IsCompatibleWith(a, b)
  }

  /** `None` is the unit of merge, merge is idempotent, and owned and guaranteed do not merge. */
  lemma MergeUnitIdempotentAndConflict(k: OwnershipKind)
    ensures Merge(None, k) == Some(k) && Merge(k, None) == Some(k)
    ensures Merge(k, k) == Some(k)
    ensures Merge(Owned, Guaranteed) == Nothing && Merge(Owned, Unowned) == Nothing
  {
  }

  lemma MergeCommutative(a: OwnershipKind, b: OwnershipKind)
    ensures Merge(a, b) == Merge(b, a)
  {
  }

  lemma MergeAssociative(a: OwnershipKind, b: OwnershipKind, c: OwnershipKind)
    ensures (match Merge(a, b) case Nothing => Nothing case Some(ab) => Merge(ab, c))
         == (match Merge(b, c) case Nothing => Nothing case Some(bc) => Merge(a, bc))
  {
  }

  /** The merge of a range fails exactly on a conflict, and otherwise yields the join. */
  lemma {:induction false} MergeAllIsJoin(s: seq<Option<OwnershipKind>>)
    ensures MergeAll(s).Nothing? <==> HasConflict(s)
    ensures forall k :: MergeAll(s) == Some(k) <==> IsJoin(s, k)
  {
    if |s| == 0 {
      assert forall x :: Some(x) !in s;
    } else {
      var p, x := s[..|s| - 1], s[|s| - 1];
      assert s == p + [x];
      assert forall y :: y in s <==> y in p || y == x;
      MergeAllIsJoin(p);
      if x.Nothing? {
        assert forall k :: IsJoin(s, k) <==> IsJoin(p, k);
      } else if MergeAll(p).Some? {
        var m := MergeAll(p).value;
        assert IsJoin(p, m);
        if !IsCompatibleWith(m, x.value) {
          assert m != None && Some(m) in p;
          assert HasConflict(s);
        } else {
          var j := Merge(m, x.value).value;
          assert IsJoin(s, j);
          forall a, b | Some(a) in s && Some(b) in s
            ensures IsCompatibleWith(a, b)
          {
            assert Below(a, j) && Below(b, j);
          }
          forall k | IsJoin(s, k)
            ensures k == j
          {
            assert IsJoin(p, m) && Below(m, k) && Below(x.value, k);
          }
        }
      } else {
        var a, b :| Some(a) in p && Some(b) in p && !IsCompatibleWith(a, b);
        assert Some(a) in s && Some(b) in s;
      }
    }
  }

  /** The merge of a range depends only on which kinds are present, not on their order or repetition. */
  lemma MergeAllDependsOnlyOnPresentKinds(s: seq<Option<OwnershipKind>>, t: seq<Option<OwnershipKind>>)
    requires forall k :: Some(k) in s <==> Some(k) in t
    ensures MergeAll(s) == MergeAll(t)
  {
    MergeAllIsJoin(s);
    MergeAllIsJoin(t);
    assert HasConflict(s) <==> HasConflict(t);
    assert forall k :: IsJoin(s, k) <==> IsJoin(t, k);
  }

  /** Every kind as a present entry: the form a list of known result kinds takes. */
  function Present(ks: seq<OwnershipKind>): (s: seq<Option<OwnershipKind>>)
    ensures |s| == |ks|
    ensures forall k :: Some(k) in s <==> k in ks
  {
    if |ks| == 0 then [] else Present(ks[..|ks| - 1]) + [Some(ks[|ks| - 1])]
  }
}
