/**
 * Whole-classifier results on small concrete instructions.
 */
module OwnershipScenarios {
  import opened OwnershipKinds
  import opened KindMaps
  import opened Sil
  import opened OperandOwnership
  import opened ClassifierRules

  /** An apply site with no operands, for instructions that are not calls. */
  const NoApplySite: ApplySite := ApplySite([], DirectUnowned, false, false)

  /** A function without direct results or yields. */
  const NoFunction: EnclosingFunction := EnclosingFunction([], [])

  /** A non-address, non-trivial value. */
  function ObjectValue(id: nat, kind: OwnershipKind): Value
  {
    Value(id, kind, false, false)
  }

  /** An instruction whose rule reads only its kind and its operands. */
  function Plain(kind: InstKind, values: seq<Value>): (inst: Instruction)
    ensures |inst.operands| == |values|
    ensures forall i :: 0 <= i < |values| ==> inst.operands[i] == Operand(values[i], false)
  {
    Instruction(kind, seq(|values|, i requires 0 <= i < |values| => Operand(values[i], false)),
                None, [], false, NoApplySite, NoFunction)
  }

  /** Operands of pairwise distinct values name each value once. */
  lemma DistinctIdsSameValue(ops: seq<Operand>)
    requires forall i :: 0 <= i < |ops| ==> ops[i].value.id == i
    ensures SameIdSameValue(ops)
  {
  }

  /** A call `apply %f(%x)` whose one argument has convention `conv`. */
  function CallWithArgument(conv: Convention, calleeConv: Convention, calleeIsNoEscape: bool,
                            callee: Value, arg: Value): Instruction
  {
    Instruction(Apply, [Operand(callee, false), Operand(arg, false)], None, [], false,
                ApplySite([CalleeOperand, ArgumentOperand(conv)], calleeConv, calleeIsNoEscape, false),
                NoFunction)
  }

  /** `struct` of two owned values: each operand is consumed as owned. */
  lemma StructOfOwnedValuesConsumesOwned(index: nat)
    requires index < 2
    ensures GetOwnershipKindMap(Plain(Struct, [ObjectValue(1, Owned), ObjectValue(2, Owned)]), index)
         == CompatibilityMap(Owned, LifetimeEnding)
  {
    var inst := Plain(Struct, [ObjectValue(1, Owned), ObjectValue(2, Owned)]);
    assert PolicyOf(inst.kind) == ForwardAnyOwnership;
    ForwardAnyOwnershipRule(inst, index);
    UniformOperandsForwardTheirKind(inst.operands, Owned, 0);
  }

  /** `struct` of an owned and a guaranteed value: neither operand can be satisfied. */
  lemma StructOfMixedValuesRejectsEverything(index: nat)
    requires index < 2
    ensures GetOwnershipKindMap(Plain(Struct, [ObjectValue(1, Owned), ObjectValue(2, Guaranteed)]), index)
         == EmptyMap()
  {
    var inst := Plain(Struct, [ObjectValue(1, Owned), ObjectValue(2, Guaranteed)]);
    assert PolicyOf(inst.kind) == ForwardAnyOwnership;
    ForwardAnyOwnershipRule(inst, index);
    ConflictingOperandsRejectEverything(inst.operands, 0, 1);
  }

  /**
   * A guaranteed argument of a call to a non-escaping guaranteed closure:
   * nothing is consumed and only the callee operand itself is `allLive()`.
   * The argument's map accepts exactly guaranteed and owned values; that it
   * rejects unowned and `None` values rests on the assumption that a
   * compatibility map accepts only the kinds listed in it.
   */
  lemma GuaranteedArgumentOfNonEscapingCallee(callee: Value, arg: Value)
    ensures var inst := CallWithArgument(DirectGuaranteed, DirectGuaranteed, true, callee, arg);
      && GetOwnershipKindMap(inst, 0) == AllLive()
      && !GetOwnershipKindMap(inst, 1).HasLifetimeEndingUse()
      && (forall k :: GetOwnershipKindMap(inst, 1).CanAcceptKind(k) <==> k == Guaranteed || k == Owned)
      && GetOwnershipKindMap(inst, 1) != AllLive()
  {
    var inst := CallWithArgument(DirectGuaranteed, DirectGuaranteed, true, callee, arg);
    assert PolicyOf(inst.kind) == FullApplySite;
    FullApplyRule(inst, 0);
    FullApplyRule(inst, 1);
  }

  /** An owned argument: an owned value is consumed, a guaranteed value is rejected. */
  lemma OwnedArgumentRejectsGuaranteed(callee: Value, arg: Value)
    ensures var inst := CallWithArgument(DirectOwned, DirectGuaranteed, false, callee, arg);
      && GetOwnershipKindMap(inst, 1) == CompatibilityMap(Owned, LifetimeEnding)
      && !GetOwnershipKindMap(inst, 1).CanAcceptKind(Guaranteed)
  {
    var inst := CallWithArgument(DirectOwned, DirectGuaranteed, false, callee, arg);
    assert PolicyOf(inst.kind) == FullApplySite;
    FullApplyRule(inst, 1);
  }

  /**
   * `select_enum %e, case A: %a, case B: %b` with owned case values: the
   * enum operand is only inspected and each case value is consumed.
   */
  lemma SelectEnumWithOwnedCases(index: nat)
    requires index < 3
    ensures var inst := Plain(SelectEnum, [ObjectValue(0, Guaranteed), ObjectValue(1, Owned), ObjectValue(2, Owned)]);
      GetOwnershipKindMap(inst, index)
        == if index == 0 then AllLive() else CompatibilityMap(Owned, LifetimeEnding)
  {
    var inst := Plain(SelectEnum, [ObjectValue(0, Guaranteed), ObjectValue(1, Owned), ObjectValue(2, Owned)]);
    assert PolicyOf(inst.kind) == SelectEnumCases;
    DistinctIdsSameValue(inst.operands);
    SelectEnumForwardsCaseValues(inst, index);
    if index == 0 {
      assert inst.operands[index].value.id == inst.operands[EnumOperand].value.id;
    } else {
      assert inst.operands[index].value.id != inst.operands[EnumOperand].value.id;
      UniformOperandsForwardTheirKind(inst.operands[1..], Owned, 0);
    }
  }

  /** `end_borrow` ends the borrow whatever the rest of the instruction holds. */
  lemma EndBorrowOfAnyBorrow(inst: Instruction)
    requires inst.kind == EndBorrow && |inst.operands| == 1
    ensures GetOwnershipKindMap(inst, 0) == CompatibilityMap(Guaranteed, LifetimeEnding)
  {
    assert PolicyOf(inst.kind) == EndsBorrow;
    EndBorrowEndsGuaranteed(inst, 0);
  }
}
