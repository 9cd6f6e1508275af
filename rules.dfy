/**
 * What `Operand::getOwnershipKindMap` answers for each family of
 * instructions, and properties that hold across families.
 */
module ClassifierRules {
  import opened OwnershipKinds
  import opened KindMaps
  import opened Sil
  import opened BuiltinClassifier
  import opened OperandOwnership

  // ---------------------------------------------------------------------
  // One lemma per family of visitors
  // ---------------------------------------------------------------------

  /** Instructions invalid in ownership SSA, or without operands, are never classified. */
  lemma NeverVisitedInstructionsAreFatal(inst: Instruction, index: nat)
    requires PolicyOf(inst.kind) == ShouldNeverVisit
    ensures !Classifiable(inst, index)
  {
  }

  /** `ref_element_addr` and `ref_tail_addr` project into a borrowed object. */
  lemma InteriorPointerProjectionsBorrow(inst: Instruction, index: nat)
    requires Classifiable(inst, index)
    requires inst.kind == RefElementAddr || inst.kind == RefTailAddr
    ensures GetOwnershipKindMap(inst, index) == CompatibilityMap(Guaranteed, NonLifetimeEnding)
  {
    assert PolicyOf(inst.kind) == InteriorPointerProjection;
  }

  /**
   * The constant-ownership families require one fixed kind, and the fixed
   * constraint is always that kind's forwarding constraint.
   */
  lemma ConstantOwnershipRule(inst: Instruction, index: nat)
    requires Classifiable(inst, index)
    requires PolicyOf(inst.kind).ConstantOwnership? || PolicyOf(inst.kind).ConstantOrNoneOwnership?
    ensures GetOwnershipKindMap(inst, index) == CompatibilityMap(PolicyOf(inst.kind).kind, PolicyOf(inst.kind).constraint)
    ensures PolicyOf(inst.kind).constraint == ForwardingLifetimeConstraint(PolicyOf(inst.kind).kind)
  {
    ConstantPoliciesUseForwardingConstraint(inst.kind);
  }

  /**
   * A store to never- or sometimes-loadable reference storage only needs
   * its operands live.
   */
  lemma StoreStorageKeepsOperandsLive(inst: Instruction, index: nat)
    requires Classifiable(inst, index)
    requires PolicyOf(inst.kind) == StoreRefStorage
    ensures inst.kind.StoreStorage? && NeverOrSometimesLoadable(inst.kind.storage)
    ensures GetOwnershipKindMap(inst, index) == AllLive()
  {
  }

  /** The accepts-any family imposes nothing. */
  lemma AcceptsAnyOwnershipRule(inst: Instruction, index: nat)
    requires Classifiable(inst, index)
    requires PolicyOf(inst.kind) == AcceptsAnyOwnership
    ensures GetOwnershipKindMap(inst, index) == AllLive()
  {
  }

  /** The forward-any family merges the kinds of all its operands. */
  lemma ForwardAnyOwnershipRule(inst: Instruction, index: nat)
    requires Classifiable(inst, index)
    requires PolicyOf(inst.kind) == ForwardAnyOwnership
    ensures GetOwnershipKindMap(inst, index) == VisitForwardingInst(inst.operands)
  {
  }

  /**
   * `destructure_struct` and `destructure_tuple` require the instruction's
   * recorded kind, with its forwarding constraint; unlike a forwarding
   * merge, a recorded `None` is required as such and is not `allLive()`.
   */
  lemma DestructureRequiresRecordedKind(inst: Instruction, index: nat)
    requires Classifiable(inst, index)
    requires inst.kind == DestructureStruct || inst.kind == DestructureTuple
    ensures forall k :: GetOwnershipKindMap(inst, index).CanAcceptKind(k) <==> k == inst.ownership
    ensures GetOwnershipKindMap(inst, index).GetLifetimeConstraint(inst.ownership)
         == ForwardingLifetimeConstraint(inst.ownership)
    ensures GetOwnershipKindMap(inst, index) != AllLive()
  {
    assert PolicyOf(inst.kind) == DestructureForwarding;
    ForwardingMapsAreDistinct();
  }

  /**
   * Projections out of a guaranteed aggregate and `mark_uninitialized`
   * start from the empty map and add their one constraint.
   */
  lemma ForwardConstantOrNoneRule(inst: Instruction, index: nat)
    requires Classifiable(inst, index)
    requires PolicyOf(inst.kind).ForwardConstantOrNoneOwnership?
    ensures GetOwnershipKindMap(inst, index) == CompatibilityMap(PolicyOf(inst.kind).kind, PolicyOf(inst.kind).constraint)
  {
    AddToEmptyIsCompatibilityMap(PolicyOf(inst.kind).kind, PolicyOf(inst.kind).constraint);
  }

  /** `dealloc_partial_ref` consumes its instance; its metatype operand stays live. */
  lemma DeallocPartialRefConsumesInstance(inst: Instruction, index: nat)
    requires Classifiable(inst, index)
    requires PolicyOf(inst.kind) == ConsumesInstance
    ensures GetOwnershipKindMap(inst, index) == CompatibilityMap(Owned, LifetimeEnding)
        <==> inst.operands[index].value.id == inst.operands[InstanceOperand].value.id
    ensures inst.operands[index].value.id != inst.operands[InstanceOperand].value.id ==>
      GetOwnershipKindMap(inst, index) == AllLive()
  {
  }

  /**
   * `store`, `assign` and `assign_by_wrapper` consume the stored source and
   * `copy_block_without_escaping` consumes the closure; every other operand,
   * and any operand that happens to carry the same value, is judged by value.
   */
  lemma StoresConsumeTheirSource(inst: Instruction, index: nat)
    requires Classifiable(inst, index)
    requires PolicyOf(inst.kind) == ConsumesSource || PolicyOf(inst.kind) == ConsumesClosure
    ensures var pos := if PolicyOf(inst.kind) == ConsumesClosure then ClosureOperand else SourceOperand;
      && pos < |inst.operands|
      && (GetOwnershipKindMap(inst, index) == CompatibilityMap(Owned, LifetimeEnding)
          <==> inst.operands[index].value.id == inst.operands[pos].value.id)
      && (inst.operands[index].value.id != inst.operands[pos].value.id ==> GetOwnershipKindMap(inst, index) == AllLive())
  {
  }

  /** `store_borrow` borrows its source; the destination address stays live. */
  lemma StoreBorrowBorrowsSource(inst: Instruction, index: nat)
    requires Classifiable(inst, index)
    requires PolicyOf(inst.kind) == StoreBorrowSource
    ensures inst.operands[index].value.id == inst.operands[SourceOperand].value.id ==>
      GetOwnershipKindMap(inst, index) == CompatibilityMap(Guaranteed, NonLifetimeEnding)
    ensures inst.operands[index].value.id != inst.operands[SourceOperand].value.id ==>
      GetOwnershipKindMap(inst, index) == AllLive()
  {
  }

  /**
   * `select_enum`: the enum operand is only inspected; the case values are
   * forwarded, merged without the enum operand.
   */
  lemma SelectEnumForwardsCaseValues(inst: Instruction, index: nat)
    requires Classifiable(inst, index)
    requires PolicyOf(inst.kind) == SelectEnumCases
    ensures inst.operands[index].value.id == inst.operands[EnumOperand].value.id ==>
      GetOwnershipKindMap(inst, index) == AllLive()
    ensures inst.operands[index].value.id != inst.operands[EnumOperand].value.id ==>
      GetOwnershipKindMap(inst, index) == VisitForwardingInst(inst.operands[1..])
  {
  }

  /** The tail-allocation operands of `alloc_ref` and `alloc_ref_dynamic` only need to be live. */
  lemma TailAllocationKeepsOperandsLive(inst: Instruction, index: nat)
    requires Classifiable(inst, index)
    requires PolicyOf(inst.kind) == TailAllocation
    ensures GetOwnershipKindMap(inst, index) == AllLive()
  {
  }

  /**
   * `br` passes a value to the destination argument at the same index:
   * the argument's kind is required, and both owned and guaranteed values
   * are consumed. This differs from the default terminator rule exactly
   * when the argument is guaranteed. `cond_br` carries trivial values only.
   */
  lemma BranchRules(inst: Instruction, index: nat)
    requires Classifiable(inst, index)
    requires PolicyOf(inst.kind) == BranchToDestArgument || PolicyOf(inst.kind) == CondBranchTrivial
    ensures PolicyOf(inst.kind) == CondBranchTrivial ==> GetOwnershipKindMap(inst, index) == AllLive()
    ensures PolicyOf(inst.kind) == BranchToDestArgument ==>
      && index < |inst.destArgKinds|
      && (forall k :: GetOwnershipKindMap(inst, index).CanAcceptKind(k) <==> k == inst.destArgKinds[index])
      && (GetOwnershipKindMap(inst, index).GetLifetimeConstraint(inst.destArgKinds[index]) == LifetimeEnding
          <==> inst.destArgKinds[index] == Owned || inst.destArgKinds[index] == Guaranteed)
      && (GetOwnershipKindMap(inst, index) == CheckTerminatorArgumentMatchesDestBB(inst.destArgKinds, index)
          <==> inst.destArgKinds[index] != Guaranteed)
  {
    if PolicyOf(inst.kind) == BranchToDestArgument {
      var k := inst.destArgKinds[index];
      if k == Guaranteed {
        assert GetOwnershipKindMap(inst, index).GetLifetimeConstraint(k)
            != CheckTerminatorArgumentMatchesDestBB(inst.destArgKinds, index).GetLifetimeConstraint(k);
      }
    }
  }

  /** `switch_enum` and `checked_cast_br` forward the operand's own kind. */
  lemma SwitchForwardsOperandKind(inst: Instruction, index: nat)
    requires Classifiable(inst, index)
    requires PolicyOf(inst.kind) == SwitchForwardsOperand
    ensures forall k :: GetOwnershipKindMap(inst, index).CanAcceptKind(k) <==> k == inst.operands[index].value.kind
    ensures GetOwnershipKindMap(inst, index).GetLifetimeConstraint(inst.operands[index].value.kind) == LifetimeEnding
        <==> inst.operands[index].value.kind == Owned
  {
  }

  /** `return` is classified by the enclosing function's direct results. */
  lemma ReturnRule(inst: Instruction, index: nat)
    requires Classifiable(inst, index)
    requires PolicyOf(inst.kind) == ReturnMergesResults
    ensures GetOwnershipKindMap(inst, index) == VisitReturnInst(inst, index)
  {
  }

  /**
   * Results that all have kind `None` make a non-trivial `return` operand
   * require `None` itself, whereas forwarding operands that all have kind
   * `None` accept anything.
   */
  lemma {:induction false} ReturnOfNoneResultsIsNotAllLive(inst: Instruction, index: nat)
    requires Classifiable(inst, index)
    requires PolicyOf(inst.kind) == ReturnMergesResults
    requires !inst.operands[index].value.isTrivial
    requires |inst.parent.directResultKinds| > 0
    requires forall i :: 0 <= i < |inst.parent.directResultKinds| ==> inst.parent.directResultKinds[i] == None
    ensures GetOwnershipKindMap(inst, index) == CompatibilityMap(None, NonLifetimeEnding)
    ensures GetOwnershipKindMap(inst, index) != AllLive()
  {
    var kinds := inst.parent.directResultKinds;
    var results := Present(kinds);
    assert kinds[0] in kinds;
    assert Some(None) in results;
    forall x | Some(x) in results
      ensures x == None
    {
      assert x in kinds;
    }
    assert IsJoin(results, None);
    ShapesDiffer(None, NonLifetimeEnding);
  }

  /** `end_borrow` ends a borrow scope: it consumes a guaranteed value. */
  lemma EndBorrowEndsGuaranteed(inst: Instruction, index: nat)
    requires Classifiable(inst, index)
    requires PolicyOf(inst.kind) == EndsBorrow
    ensures GetOwnershipKindMap(inst, index) == CompatibilityMap(Guaranteed, LifetimeEnding)
  {
  }

  /** `throw` and `keypath` consume an owned value. */
  lemma ThrowAndKeyPathConsumeOwned(inst: Instruction, index: nat)
    requires Classifiable(inst, index)
    requires PolicyOf(inst.kind) == ThrowConsumes || PolicyOf(inst.kind) == KeyPathConsumes
    ensures GetOwnershipKindMap(inst, index) == CompatibilityMap(Owned, LifetimeEnding)
  {
  }

  /** `partial_apply` captures by consuming owned values, unless it is on the stack. */
  lemma PartialApplyCapturesOwned(inst: Instruction, index: nat)
    requires Classifiable(inst, index)
    requires PolicyOf(inst.kind) == PartialApplyCaptures
    ensures inst.onStack ==> GetOwnershipKindMap(inst, index) == AllLive()
    ensures !inst.onStack ==> GetOwnershipKindMap(inst, index) == CompatibilityMap(Owned, LifetimeEnding)
  {
  }

  /**
   * `mark_dependence`: the value forwards the instruction's recorded kind
   * (anything when that kind is `None`); the base is never consumed.
   */
  lemma MarkDependenceForwardsValue(inst: Instruction, index: nat)
    requires Classifiable(inst, index)
    requires PolicyOf(inst.kind) == MarkDependenceValue
    ensures inst.operands[index].value.id != inst.operands[DependentValueOperand].value.id ==>
      GetOwnershipKindMap(inst, index) == AllLive()
    ensures inst.operands[index].value.id == inst.operands[DependentValueOperand].value.id ==>
      (GetOwnershipKindMap(inst, index) == AllLive() <==> inst.ownership == None)
    ensures inst.operands[index].value.id == inst.operands[DependentValueOperand].value.id && inst.ownership != None ==>
      GetOwnershipKindMap(inst, index) == ForwardingMap(inst.ownership)
  {
    ForwardingMapsAreDistinct();
  }

  /** `apply`, `try_apply` and `begin_apply` share the full-apply rule. */
  lemma FullApplyRule(inst: Instruction, index: nat)
    requires Classifiable(inst, index)
    requires PolicyOf(inst.kind) == FullApplySite
    ensures GetOwnershipKindMap(inst, index) == VisitFullApply(inst, index)
  {
  }

  /** A yielded value is classified as a call argument of the same convention. */
  lemma YieldMatchesApplyArgument(inst: Instruction, index: nat)
    requires Classifiable(inst, index)
    requires PolicyOf(inst.kind) == YieldConvention
    ensures IsAddressOrTrivial(inst.operands[index].value) ==> GetOwnershipKindMap(inst, index) == AllLive()
    ensures !IsAddressOrTrivial(inst.operands[index].value) ==>
      GetOwnershipKindMap(inst, index) == VisitApplyArgument(inst.parent.yieldConventions[index], false)
  {
  }

  /** `builtin` defers to the builtin sub-classifier. */
  lemma BuiltinRule(inst: Instruction, index: nat)
    requires Classifiable(inst, index)
    requires PolicyOf(inst.kind).BuiltinCall?
    ensures GetOwnershipKindMap(inst, index) == VisitBuiltin(PolicyOf(inst.kind).id)
  {
  }

  // ---------------------------------------------------------------------
  // Properties across families
  // ---------------------------------------------------------------------

  /** No operand of an apply site other than the callee or a type operand rejects an owned value. */
  lemma ApplyOperandsAcceptOwned(inst: Instruction, index: nat)
    requires Classifiable(inst, index)
    requires PolicyOf(inst.kind) == FullApplySite
    requires inst.apply.roles[index] != CalleeOperand && !inst.operands[index].typeDependent
    ensures GetOwnershipKindMap(inst, index).CanAcceptKind(Owned)
  {
  }

  /**
   * An empty map, which no value satisfies, comes only from a failed merge
   * (forwarding, `select_enum` case values, `return`), a function without
   * direct results, or a type-dependent operand of an apply site.
   */
  lemma EmptyMapOnlyFromMergeOrTypeDependence(inst: Instruction, index: nat)
    requires Classifiable(inst, index)
    ensures GetOwnershipKindMap(inst, index) == EmptyMap() ==>
            || PolicyOf(inst.kind) == ForwardAnyOwnership
            || PolicyOf(inst.kind) == SelectEnumCases
            || PolicyOf(inst.kind) == ReturnMergesResults
            || (PolicyOf(inst.kind) == FullApplySite && inst.operands[index].typeDependent)
  {
    var r := GetOwnershipKindMap(inst, index);
    ShapesDiffer(None, NonLifetimeEnding);
    ForwardingMapsAreDistinct();
    match PolicyOf(inst.kind)
    case ForwardAnyOwnership =>
    case SelectEnumCases =>
    case ReturnMergesResults =>
    case FullApplySite =>
    case DestructureForwarding =>
      assert r.CanAcceptKind(inst.ownership);
    case SwitchForwardsOperand =>
      assert r.CanAcceptKind(inst.operands[index].value.kind);
    case MarkDependenceValue =>
      assert r.CanAcceptKind(inst.ownership);
    case BranchToDestArgument =>
      assert r.CanAcceptKind(inst.destArgKinds[index]);
    case ConstantOwnership(k, _) =>
      assert r.CanAcceptKind(k);
    case ConstantOrNoneOwnership(k, _) =>
      assert r.CanAcceptKind(k);
    case ForwardConstantOrNoneOwnership(k, _) =>
      assert r.CanAcceptKind(k);
    case _ =>
  }

  /**
   * A use that consumes accepts exactly one kind: either an owned value
   * it takes, or a guaranteed value whose borrow it ends.
   */
  lemma ConsumingUsesAcceptOneKind(inst: Instruction, index: nat)
    requires Classifiable(inst, index)
    requires GetOwnershipKindMap(inst, index).HasLifetimeEndingUse()
    ensures || GetOwnershipKindMap(inst, index) == CompatibilityMap(Owned, LifetimeEnding)
            || GetOwnershipKindMap(inst, index) == CompatibilityMap(Guaranteed, LifetimeEnding)
  {
    var r := GetOwnershipKindMap(inst, index);
    var k :| r.CanAcceptKind(k) && r.GetLifetimeConstraint(k) == LifetimeEnding;
    assert !AllLive().HasLifetimeEndingUse();
    match PolicyOf(inst.kind)
    case ForwardAnyOwnership =>
      ForwardingConsumesOnlyOwned(inst.operands);
    case SelectEnumCases =>
      ForwardingConsumesOnlyOwned(inst.operands[1..]);
    case ReturnMergesResults =>
      assert r.CanAcceptKind(Owned);
    case DestructureForwarding =>
      assert r.CanAcceptKind(Owned);
    case SwitchForwardsOperand =>
      assert r.CanAcceptKind(Owned);
    case MarkDependenceValue =>
      assert r.CanAcceptKind(Owned);
    case BranchToDestArgument =>
      assert r.CanAcceptKind(k);
    case FullApplySite =>
      ApplyConsumesOnlyOwned(inst, index);
    case YieldConvention =>
      assert r == VisitApplyArgument(inst.parent.yieldConventions[index], false);
    case _ =>
  }

  /** A forwarding merge consumes only as the one-entry owned map. */
  lemma ForwardingConsumesOnlyOwned(ops: seq<Operand>)
    requires VisitForwardingInst(ops).HasLifetimeEndingUse()
    ensures VisitForwardingInst(ops) == CompatibilityMap(Owned, LifetimeEnding)
  {
    var r := VisitForwardingInst(ops);
    var kinds := ForwardedKinds(ops);
    MergeAllIsJoin(kinds);
    assert r != AllLive() && r != EmptyMap();
    var m := MergeAll(kinds).value;
    assert r == ForwardingMap(m);
    assert r.CanAcceptKind(Owned);
  }

  /** A full-apply operand consumes only as the one-entry owned map. */
  lemma ApplyConsumesOnlyOwned(inst: Instruction, index: nat)
    requires ApplyOperandClassifiable(inst, index)
    requires VisitFullApply(inst, index).HasLifetimeEndingUse()
    ensures VisitFullApply(inst, index) == CompatibilityMap(Owned, LifetimeEnding)
  {
    ShapesDiffer(Owned, LifetimeEnding);
    assert !AllLive().HasLifetimeEndingUse();
    assert !EmptyMap().HasLifetimeEndingUse();
  }

  // ---------------------------------------------------------------------
  // Forwarding depends only on the kinds present
  // ---------------------------------------------------------------------

  /** Reordering the operands of a forwarding instruction does not change its map. */
  lemma ForwardingIgnoresOperandOrder(ops: seq<Operand>, ops': seq<Operand>)
    requires multiset(ops) == multiset(ops')
    ensures VisitForwardingInst(ops) == VisitForwardingInst(ops')
  {
    SamePresentKinds(ops, ops');
    SamePresentKinds(ops', ops);
    MergeAllDependsOnlyOnPresentKinds(ForwardedKinds(ops), ForwardedKinds(ops'));
  }

  /** Every kind forwarded by `ops` is forwarded by any rearrangement of `ops`. */
  lemma SamePresentKinds(ops: seq<Operand>, ops': seq<Operand>)
    requires multiset(ops) == multiset(ops')
    ensures forall k :: Some(k) in ForwardedKinds(ops) ==> Some(k) in ForwardedKinds(ops')
  {
    forall k | Some(k) in ForwardedKinds(ops)
      ensures Some(k) in ForwardedKinds(ops')
    {
      var i :| 0 <= i < |ops| && ForwardedKinds(ops)[i] == Some(k);
      assert ops[i] in multiset(ops');
      var j :| 0 <= j < |ops'| && ops'[j] == ops[i];
      assert ForwardedKinds(ops')[j] == Some(k);
    }
  }

  /** A type-dependent operand does not take part in the merge. */
  lemma TypeDependentOperandsAreIgnored(ops: seq<Operand>, v: Value)
    ensures VisitForwardingInst(ops + [Operand(v, true)]) == VisitForwardingInst(ops)
  {
    var ops' := ops + [Operand(v, true)];
    forall k
      ensures Some(k) in ForwardedKinds(ops') <==> Some(k) in ForwardedKinds(ops)
    {
      if Some(k) in ForwardedKinds(ops') {
        var i :| 0 <= i < |ops'| && ForwardedKinds(ops')[i] == Some(k);
        assert i < |ops| && ops'[i] == ops[i];
        assert ForwardedKinds(ops)[i] == Some(k);
      }
      if Some(k) in ForwardedKinds(ops) {
        var i :| 0 <= i < |ops| && ForwardedKinds(ops)[i] == Some(k);
        assert ops'[i] == ops[i];
        assert ForwardedKinds(ops')[i] == Some(k);
      }
    }
    MergeAllDependsOnlyOnPresentKinds(ForwardedKinds(ops'), ForwardedKinds(ops));
  }

  /** Operands that all carry one kind `k` other than `None` forward exactly `k`. */
  lemma UniformOperandsForwardTheirKind(ops: seq<Operand>, k: OwnershipKind, i: nat)
    requires k != None
    requires i < |ops| && !ops[i].typeDependent
    requires forall j :: 0 <= j < |ops| && !ops[j].typeDependent ==> ops[j].value.kind == k
    ensures VisitForwardingInst(ops) == ForwardingMap(k)
  {
    var kinds := ForwardedKinds(ops);
    assert kinds[i] == Some(k);
    forall x | Some(x) in kinds
      ensures Below(x, k)
    {
      var j :| 0 <= j < |kinds| && kinds[j] == Some(x);
    }
    assert IsJoin(kinds, k);
  }

  /** Two present operands with incompatible kinds make every operand unusable. */
  lemma ConflictingOperandsRejectEverything(ops: seq<Operand>, i: nat, j: nat)
    requires i < |ops| && j < |ops| && !ops[i].typeDependent && !ops[j].typeDependent
    requires !IsCompatibleWith(ops[i].value.kind, ops[j].value.kind)
    ensures VisitForwardingInst(ops) == EmptyMap()
  {
    var kinds := ForwardedKinds(ops);
    assert kinds[i] == Some(ops[i].value.kind) && kinds[j] == Some(ops[j].value.kind);
    assert HasConflict(kinds);
  }

  /**
   * When the merge succeeds, every present operand either carries the
   * merged kind, which the map accepts, or carries `None`.
   */
  lemma ForwardedOperandsMatchTheMerge(ops: seq<Operand>, i: nat)
    requires i < |ops| && !ops[i].typeDependent
    requires VisitForwardingInst(ops) != EmptyMap()
    ensures ops[i].value.kind == None || VisitForwardingInst(ops).CanAcceptKind(ops[i].value.kind)
  {
    var kinds := ForwardedKinds(ops);
    MergeAllIsJoin(kinds);
    var m := MergeAll(kinds).value;
    assert kinds[i] == Some(ops[i].value.kind);
    assert Below(ops[i].value.kind, m);
    if m == None {
      assert VisitForwardingInst(ops) == AllLive();
    } else {
      assert VisitForwardingInst(ops) == ForwardingMap(m);
    }
  }
}
