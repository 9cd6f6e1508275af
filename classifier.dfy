/**
 * The operand-ownership classifier: for an operand of an instruction, the
 * compatibility map of ownership kinds the operand may carry.
 *
 * The per-kind visitors generated by the macro families are a table,
 * `PolicyOf`, from instruction kind to policy; `GetOwnershipKindMap`
 * dispatches on that policy.
 */
module OperandOwnership {
  import opened OwnershipKinds
  import opened KindMaps
  import opened Sil
  import opened BuiltinClassifier

  /** How the operands of one instruction kind are classified. */
  datatype Policy =
    | ShouldNeverVisit
    | InteriorPointerProjection
    | ConstantOwnership(kind: OwnershipKind, constraint: LifetimeConstraint)
    | ConstantOrNoneOwnership(kind: OwnershipKind, constraint: LifetimeConstraint)
    | AcceptsAnyOwnership
    | ForwardAnyOwnership
    | DestructureForwarding
    | ForwardConstantOrNoneOwnership(kind: OwnershipKind, constraint: LifetimeConstraint)
    | ConsumesInstance        // dealloc_partial_ref
    | SelectEnumCases
    | TailAllocation          // alloc_ref, alloc_ref_dynamic
    | BranchToDestArgument
    | CondBranchTrivial
    | SwitchForwardsOperand   // switch_enum, checked_cast_br
    | ReturnMergesResults
    | EndsBorrow
    | ThrowConsumes
    | StoreRefStorage
    | StoreBorrowSource
    | FullApplySite          // apply, try_apply, begin_apply
    | PartialApplyCaptures
    | YieldConvention
    | ConsumesSource          // store, assign, assign_by_wrapper
    | ConsumesClosure         // copy_block_without_escaping
    | MarkDependenceValue
    | KeyPathConsumes
    | BuiltinCall(id: BuiltinId)

  /** The visitor each instruction kind is given. */
  function PolicyOf(k: InstKind): Policy
  {
    match k
    case AllocBox | AllocExistentialBox | AllocGlobal | AllocStack
       | DifferentiabilityWitnessFunction | FloatLiteral | FunctionRef
       | DynamicFunctionRef | PreviousDynamicFunctionRef | GlobalAddr | GlobalValue
       | BaseAddrForOffset | IntegerLiteral | Metatype | ObjCProtocol | RetainValue
       | RetainValueAddr | StringLiteral | StrongRetain | Unreachable | Unwind
       | ReleaseValue | ReleaseValueAddr | StrongRelease | GetAsyncContinuation
      => ShouldNeverVisit
    case StrongRetainStorage(_) => ShouldNeverVisit
    case StorageRetain(_) => ShouldNeverVisit

    case RefElementAddr | RefTailAddr => InteriorPointerProjection

    case OpenExistentialValue | OpenExistentialBoxValue | OpenExistentialBox | HopToExecutor
      => ConstantOwnership(Guaranteed, NonLifetimeEnding)
    case AutoreleaseValue | DeallocBox | DeallocExistentialBox | DeallocRef | DestroyValue
       | EndLifetime | BeginCOWMutation | EndCOWMutation
      => ConstantOwnership(Owned, LifetimeEnding)
    case AwaitAsyncContinuation | AbortApply | AddressToPointer | BeginAccess
       | BeginUnpairedAccess | BindMemory | CheckedCastAddrBranch | CondFail | CopyAddr
       | DeallocStack | DebugValueAddr | DeinitExistentialAddr | DestroyAddr | EndAccess
       | EndApply | EndUnpairedAccess | GetAsyncContinuationAddr | IndexAddr
       | IndexRawPointer | InitBlockStorageHeader | InitEnumDataAddr | InitExistentialAddr
       | InitExistentialMetatype | InjectEnumAddr | IsUnique | Load | LoadBorrow
       | MarkFunctionEscape | ObjCExistentialMetatypeToObject | ObjCMetatypeToObject
       | ObjCToThickMetatype | OpenExistentialAddr | OpenExistentialMetatype
       | PointerToAddress | PointerToThinFunction | ProjectBlockStorage
       | ProjectValueBuffer | RawPointerToRef | SelectEnumAddr | SelectValue
       | StructElementAddr | SwitchEnumAddr | SwitchValue | TailAddr
       | ThickToObjCMetatype | ThinFunctionToPointer | ThinToThickFunction
       | TupleElementAddr | UncheckedAddrCast | UncheckedRefCastAddr
       | UncheckedTakeEnumDataAddr | UnconditionalCheckedCastAddr | AllocValueBuffer
       | DeallocValueBuffer
      => ConstantOwnership(None, NonLifetimeEnding)
    case LoadStorage(_) => ConstantOwnership(None, NonLifetimeEnding)
    case StorageRelease(_) => ConstantOwnership(Owned, LifetimeEnding)
    case StorageToRef(s) =>
      if s == Unchecked then ConstantOwnership(None, NonLifetimeEnding) else AcceptsAnyOwnership

    case CheckedCastValueBranch | UnconditionalCheckedCastValue | InitExistentialValue
       | DeinitExistentialValue
      => ConstantOrNoneOwnership(Owned, LifetimeEnding)

    case BeginBorrow | CopyValue | DebugValue | FixLifetime | UncheckedBitwiseCast
       | WitnessMethod | ProjectBox | DynamicMethodBranch | UncheckedTrivialBitCast
       | ExistentialMetatype | ValueMetatype | UncheckedOwnershipConversion
       | ValueToBridgeObject | IsEscapingClosure | ClassMethod | ObjCMethod
       | ObjCSuperMethod | SuperMethod | BridgeObjectToWord | ClassifyBridgeObject
       | CopyBlock | RefToRawPointer | SetDeallocating | ProjectExistentialBox
       | UnmanagedRetainValue | UnmanagedReleaseValue | UnmanagedAutoreleaseValue
       | ConvertEscapeToNoEscape
      => AcceptsAnyOwnership
    case RefToStorage(_) => AcceptsAnyOwnership
    case StrongCopyStorageValue(_) => AcceptsAnyOwnership

    case Tuple | Struct | Object | Enum | OpenExistentialRef | Upcast | UncheckedRefCast
       | ConvertFunction | RefToBridgeObject | BridgeObjectToRef | UnconditionalCheckedCast
       | UncheckedEnumData | InitExistentialRef | DifferentiableFunction | LinearFunction
       | UncheckedValueCast
      => ForwardAnyOwnership
    case DestructureStruct | DestructureTuple => DestructureForwarding
    case TupleExtract | StructExtract | DifferentiableFunctionExtract | LinearFunctionExtract
      => ForwardConstantOrNoneOwnership(Guaranteed, NonLifetimeEnding)
    case MarkUninitialized => ForwardConstantOrNoneOwnership(Owned, LifetimeEnding)

    case DeallocPartialRef => ConsumesInstance
    case SelectEnum => SelectEnumCases
    case AllocRef | AllocRefDynamic => TailAllocation
    case Branch => BranchToDestArgument
    case CondBranch => CondBranchTrivial
    case SwitchEnum | CheckedCastBranch => SwitchForwardsOperand
    case Return => ReturnMergesResults
    case EndBorrow => EndsBorrow
    case Throw => ThrowConsumes
    case StoreStorage(_) => StoreRefStorage
    case StoreBorrow => StoreBorrowSource
    case Apply | TryApply | BeginApply => FullApplySite
    case PartialApply => PartialApplyCaptures
    case Yield => YieldConvention
    case Assign | AssignByWrapper | Store => ConsumesSource
    case CopyBlockWithoutEscaping => ConsumesClosure
    case MarkDependence => MarkDependenceValue
    case KeyPath => KeyPathConsumes
    case Builtin(id) => BuiltinCall(id)
  }

  // Operand positions of the accessors the classifier compares against.
  const SourceOperand: nat := 0          // getSrc() of store, assign, assign_by_wrapper, store_borrow
  const InstanceOperand: nat := 0        // getInstance() of dealloc_partial_ref
  const ClosureOperand: nat := 1         // getClosure() of copy_block_without_escaping
  const DependentValueOperand: nat := 0  // getValue() of mark_dependence
  const EnumOperand: nat := 0            // getEnumOperand() of select_enum

  /** `isAddressOrTrivialType()`: an address, or a value without ownership. */
  predicate IsAddressOrTrivial(v: Value)
  {
    v.isAddress || v.kind == None
  }

  /** Operands naming the same SSA value (equal `id`) carry the same value record. */
  predicate SameIdSameValue(ops: seq<Operand>)
  {
    forall i, j :: 0 <= i < |ops| && 0 <= j < |ops| && ops[i].value.id == ops[j].value.id ==> ops[i].value == ops[j].value
  }

  /** The callee's own convention must not be inout, and every operand has a role. */
  predicate ApplyOperandClassifiable(inst: Instruction, index: nat)
  {
    && index < |inst.operands|
    && index < |inst.apply.roles|
    && match inst.apply.roles[index]
       case CalleeOperand => !IsInout(inst.apply.calleeConvention)
       case IndirectResultOperand => true
       case ArgumentOperand(_) => true
       case TypeOperand => inst.operands[index].typeDependent
  }

  /**
   * The operand can be classified without reaching a fatal error: the
   * instruction is valid in ownership SSA and every IR query the rule makes
   * has an answer. The rules that pick an operand by its value also rely on
   * one `id` naming one value.
   */
  predicate Classifiable(inst: Instruction, index: nat)
  {
    && index < |inst.operands|
    && Declared(inst.kind)
    && match PolicyOf(inst.kind)
       case ShouldNeverVisit => false
       case BranchToDestArgument => index < |inst.destArgKinds|
       case ConsumesInstance | ConsumesSource | SelectEnumCases | StoreBorrowSource | MarkDependenceValue =>
         SameIdSameValue(inst.operands)
       case ConsumesClosure => ClosureOperand < |inst.operands| && SameIdSameValue(inst.operands)
       case FullApplySite => ApplyOperandClassifiable(inst, index)
       case YieldConvention =>
         !IsAddressOrTrivial(inst.operands[index].value) ==>
           index < |inst.parent.yieldConventions| && !IsInout(inst.parent.yieldConventions[index])
       case BuiltinCall(id) => BuiltinClassifiable(id)
       case _ => true
  }

  /** The kinds a forwarding instruction merges: absent for type-dependent operands. */
  function ForwardedKinds(ops: seq<Operand>): (s: seq<Option<OwnershipKind>>)
    ensures |s| == |ops|
    ensures forall i :: 0 <= i < |ops| ==> (s[i].Some? <==> !ops[i].typeDependent)
    ensures forall i :: 0 <= i < |ops| && s[i].Some? ==> s[i].value == ops[i].value.kind
  {
    seq(|ops|, i requires 0 <= i < |ops| => if ops[i].typeDependent then Nothing else Some(ops[i].value.kind))
  }

  /**
   * `visitForwardingInst`: merge the kinds of the forwarded operands. A
   * conflict rejects every kind, a merged `None` accepts everything, and any
   * other merged kind is required with its forwarding constraint.
   */
  function VisitForwardingInst(ops: seq<Operand>): (r: KindMap)
    ensures r == EmptyMap() <==> HasConflict(ForwardedKinds(ops))
    ensures r == AllLive() <==> IsJoin(ForwardedKinds(ops), None)
    ensures forall k :: k != None ==> (r == ForwardingMap(k) <==> IsJoin(ForwardedKinds(ops), k))
  {
    var kinds := ForwardedKinds(ops);
    MergeAllIsJoin(kinds);
    ForwardingMapsAreDistinct();
    ShapesDiffer(None, NonLifetimeEnding);
    match MergeAll(kinds)
    case Nothing => EmptyMap()
    case Some(kind) => if kind == None then AllLive() else ForwardingMap(kind)
  }

  /**
   * `checkTerminatorArgumentMatchesDestBB`: a terminator operand takes the
   * kind of the destination block argument with its forwarding constraint.
   */
  function CheckTerminatorArgumentMatchesDestBB(destArgKinds: seq<OwnershipKind>, index: nat): (r: KindMap)
    requires index < |destArgKinds|
    ensures forall k :: r.CanAcceptKind(k) <==> k == destArgKinds[index]
    ensures r.GetLifetimeConstraint(destArgKinds[index]) == LifetimeEnding <==> destArgKinds[index] == Owned
  {
    ForwardingMap(destArgKinds[index])
  }

  /**
   * `visitBranchInst`: a `br` operand takes the kind of the destination
   * block argument at the same index; an owned value is consumed, and so is
   * a guaranteed one, whose borrow scope the edge ends.
   */
  function VisitBranchInst(inst: Instruction, index: nat): (r: KindMap)
    requires index < |inst.destArgKinds|
    ensures forall k :: r.CanAcceptKind(k) <==> k == inst.destArgKinds[index]
    ensures r.GetLifetimeConstraint(inst.destArgKinds[index]) == LifetimeEnding
        <==> inst.destArgKinds[index] == Owned || inst.destArgKinds[index] == Guaranteed
  {
    var destKind := inst.destArgKinds[index];
    if destKind == Guaranteed then CompatibilityMap(destKind, LifetimeEnding)
    else CompatibilityMap(destKind, ForwardingLifetimeConstraint(destKind))
  }

  /**
   * `visitReturnInst`: a trivial returned value is accepted as anything;
   * otherwise the function's direct result kinds are merged, no results or a
   * conflict rejects everything, and the merged kind is required with its
   * forwarding constraint (a merged `None` included).
   */
  function VisitReturnInst(inst: Instruction, index: nat): (r: KindMap)
    requires index < |inst.operands|
    ensures inst.operands[index].value.isTrivial ==> r == AllLive()
    ensures !inst.operands[index].value.isTrivial ==>
      (r == EmptyMap() <==> |inst.parent.directResultKinds| == 0 || HasConflict(Present(inst.parent.directResultKinds)))
    ensures !inst.operands[index].value.isTrivial && |inst.parent.directResultKinds| > 0 ==>
      forall k :: r == ForwardingMap(k) <==> IsJoin(Present(inst.parent.directResultKinds), k)
  {
    if inst.operands[index].value.isTrivial then AllLive()
    else
      var results := inst.parent.directResultKinds;
      ForwardingMapsAreDistinct();
      if |results| == 0 then EmptyMap()
      else
        MergeAllIsJoin(Present(results));
        match MergeAll(Present(results))
        case Nothing => EmptyMap()
        case Some(base) => ForwardingMap(base)
  }

  /**
   * `visitCallee`: the callee operand is classified by the callee's
   * convention for itself. A consumed callee must be owned; an escaping
   * guaranteed callee may also be an owned value, borrowed for the call.
   */
  function VisitCallee(conv: Convention, noEscape: bool): (r: KindMap)
    requires !IsInout(conv)
    ensures r.CanAcceptKind(Owned) <==> conv != IndirectInGuaranteed
    ensures r.HasLifetimeEndingUse() <==> conv == IndirectIn || conv == IndirectInConstant || conv == DirectOwned
    ensures r.HasLifetimeEndingUse() ==> r == CompatibilityMap(Owned, LifetimeEnding)
    ensures conv == IndirectInGuaranteed ==> r == CompatibilityMap(Guaranteed, NonLifetimeEnding)
    ensures r == AllLive() <==> conv == DirectUnowned || (conv == DirectGuaranteed && noEscape)
    ensures conv == DirectGuaranteed && !noEscape ==> r == VisitApplyParameter(Guaranteed, NonLifetimeEnding)
  {
    ShapesDiffer(Owned, LifetimeEnding);
    ShapesDiffer(Guaranteed, NonLifetimeEnding);
    match conv
    case IndirectIn | IndirectInConstant => CompatibilityMap(Owned, LifetimeEnding)
    case IndirectInGuaranteed => CompatibilityMap(Guaranteed, NonLifetimeEnding)
    case DirectUnowned => AllLive()
    case DirectOwned => CompatibilityMap(Owned, LifetimeEnding)
    case DirectGuaranteed =>
      if noEscape then AllLive()
      else
        var m := CompatibilityMapOf([(Guaranteed, NonLifetimeEnding), (Owned, NonLifetimeEnding)]);
        assert m == VisitApplyParameter(Guaranteed, NonLifetimeEnding);
        assert !m.CanAcceptKind(None) && AllLive().CanAcceptKind(None);
        m
  }

  /**
   * `visitApplyParameter`: the required kind and constraint, widened so that
   * an owned value is always accepted, as a borrow for the duration of the
   * call when the requirement is not itself owned.
   */
  function VisitApplyParameter(kind: OwnershipKind, requirement: LifetimeConstraint): (r: KindMap)
    ensures forall k :: r.CanAcceptKind(k) <==> k == kind || k == Owned
    ensures r.GetLifetimeConstraint(kind) == requirement
    ensures kind != Owned ==> r.GetLifetimeConstraint(Owned) == NonLifetimeEnding
    ensures r.HasLifetimeEndingUse() <==> requirement == LifetimeEnding
  {
    if kind != Owned then
      var pairs := [(kind, requirement), (Owned, NonLifetimeEnding)];
      assert pairs[0].0 == kind && pairs[1].0 == Owned;
      var m := CompatibilityMapOf(pairs);
      assert forall k :: m.CanAcceptKind(k) ==> k == kind || k == Owned by {
        forall k | m.CanAcceptKind(k)
          ensures k == kind || k == Owned
        {
          var i :| 0 <= i < |pairs| && pairs[i].0 == k;
          assert i == 0 || i == 1;
        }
      }
      assert m.GetLifetimeConstraint(kind) == requirement && m.GetLifetimeConstraint(Owned) == NonLifetimeEnding;
      m
    else CompatibilityMap(kind, requirement)
  }

  /**
   * The convention switch of `visitFullApply` for an argument operand. An
   * owned value is accepted whatever the convention; only an owned
   * parameter, or an indirect one when addresses are not lowered, is
   * consumed.
   */
  function VisitApplyArgument(conv: Convention, useLoweredAddresses: bool): (r: KindMap)
    ensures r.CanAcceptKind(Owned)
    ensures r == AllLive() <==>
      conv == DirectUnowned || conv == IndirectInConstant || IsInout(conv)
      || (useLoweredAddresses && (conv == IndirectIn || conv == IndirectInGuaranteed))
    ensures r.HasLifetimeEndingUse() <==> conv == DirectOwned || (conv == IndirectIn && !useLoweredAddresses)
    ensures r.HasLifetimeEndingUse() ==> r == CompatibilityMap(Owned, LifetimeEnding)
    ensures r != AllLive() && !r.HasLifetimeEndingUse() ==> r == VisitApplyParameter(Guaranteed, NonLifetimeEnding)
  {
    var widenedGuaranteed := VisitApplyParameter(Guaranteed, NonLifetimeEnding);
    assert !widenedGuaranteed.CanAcceptKind(None);
    assert widenedGuaranteed.GetLifetimeConstraint(Guaranteed) == NonLifetimeEnding;
    ShapesDiffer(Owned, LifetimeEnding);
    match conv
    case DirectOwned => VisitApplyParameter(Owned, LifetimeEnding)
    case DirectUnowned => AllLive()
    case IndirectIn =>
      if useLoweredAddresses then AllLive() else VisitApplyParameter(Owned, LifetimeEnding)
    case IndirectInGuaranteed =>
      if useLoweredAddresses then AllLive() else widenedGuaranteed
    case IndirectInConstant | IndirectInout | IndirectInoutAliasable => AllLive()
    case DirectGuaranteed => widenedGuaranteed
  }

  /**
   * `visitFullApply`: the callee operand follows the callee rule, indirect
   * results are addresses, type-dependent operands are rejected, and an
   * argument follows its parameter's convention.
   */
  function VisitFullApply(inst: Instruction, index: nat): (r: KindMap)
    requires ApplyOperandClassifiable(inst, index)
    ensures inst.apply.roles[index] == CalleeOperand ==>
      r == VisitCallee(inst.apply.calleeConvention, inst.apply.calleeIsNoEscape)
    ensures inst.apply.roles[index] == IndirectResultOperand ==> r == AllLive()
    ensures inst.apply.roles[index].ArgumentOperand? || inst.apply.roles[index] == TypeOperand ==>
      (r == EmptyMap() <==> inst.operands[index].typeDependent)
    ensures inst.apply.roles[index].ArgumentOperand? && !inst.operands[index].typeDependent ==>
      r == VisitApplyArgument(inst.apply.roles[index].convention, inst.apply.useLoweredAddresses)
  {
    match inst.apply.roles[index]
    case CalleeOperand => VisitCallee(inst.apply.calleeConvention, inst.apply.calleeIsNoEscape)
    case IndirectResultOperand => AllLive()
    case _ =>
      if inst.operands[index].typeDependent then EmptyMap()
      else
        var conv := inst.apply.roles[index].convention;
        VisitApplyArgument(conv, inst.apply.useLoweredAddresses)
  }

  /**
   * `visitYieldInst`: an address or trivial value is accepted as anything;
   * otherwise the yield's convention classifies the operand exactly as the
   * same convention classifies a call argument when addresses are not
   * lowered.
   */
  function VisitYieldInst(inst: Instruction, index: nat): (r: KindMap)
    requires index < |inst.operands|
    requires !IsAddressOrTrivial(inst.operands[index].value) ==>
      index < |inst.parent.yieldConventions| && !IsInout(inst.parent.yieldConventions[index])
    ensures IsAddressOrTrivial(inst.operands[index].value) ==> r == AllLive()
    ensures !IsAddressOrTrivial(inst.operands[index].value) ==>
      r == VisitApplyArgument(inst.parent.yieldConventions[index], false)
  {
    if IsAddressOrTrivial(inst.operands[index].value) then AllLive()
    else
      match inst.parent.yieldConventions[index]
      case IndirectIn | DirectOwned => VisitApplyParameter(Owned, LifetimeEnding)
      case IndirectInConstant | DirectUnowned => AllLive()
      case IndirectInGuaranteed | DirectGuaranteed => VisitApplyParameter(Guaranteed, NonLifetimeEnding)
  }

  /**
   * The operand-position rule of store, assign, assign_by_wrapper,
   * copy_block_without_escaping and dealloc_partial_ref: the designated
   * operand's value is consumed, every other operand is only kept live.
   */
  function VisitConsumedOperand(inst: Instruction, index: nat, designated: nat): (r: KindMap)
    requires index < |inst.operands| && designated < |inst.operands|
    ensures r == CompatibilityMap(Owned, LifetimeEnding) <==> inst.operands[index].value.id == inst.operands[designated].value.id
    ensures r != CompatibilityMap(Owned, LifetimeEnding) ==> r == AllLive()
  {
    ShapesDiffer(Owned, LifetimeEnding);
    if inst.operands[index].value.id != inst.operands[designated].value.id then AllLive()
    else CompatibilityMap(Owned, LifetimeEnding)
  }

  /** Every fixed pair in the table is a kind with its forwarding constraint. */
  lemma ConstantPoliciesUseForwardingConstraint(k: InstKind)
    ensures PolicyOf(k).ConstantOwnership? || PolicyOf(k).ConstantOrNoneOwnership?
         || PolicyOf(k).ForwardConstantOrNoneOwnership?
      ==> PolicyOf(k).constraint == ForwardingLifetimeConstraint(PolicyOf(k).kind)
  {
  }

  /**
   * `Operand::getOwnershipKindMap`: classify operand `index` of `inst`. Only
   * owned and guaranteed uses can end a lifetime, and a guaranteed use ends
   * only at `end_borrow` or when a `br` passes it to a guaranteed argument.
   */
  function GetOwnershipKindMap(inst: Instruction, index: nat): (r: KindMap)
    requires Classifiable(inst, index)
    ensures forall k :: r.CanAcceptKind(k) && r.GetLifetimeConstraint(k) == LifetimeEnding ==> k == Owned || k == Guaranteed
    ensures r.CanAcceptKind(Guaranteed) && r.GetLifetimeConstraint(Guaranteed) == LifetimeEnding ==>
      PolicyOf(inst.kind) == EndsBorrow || PolicyOf(inst.kind) == BranchToDestArgument
  {
    var v := inst.operands[index].value;
    ConstantPoliciesUseForwardingConstraint(inst.kind);
    match PolicyOf(inst.kind)
    case InteriorPointerProjection => CompatibilityMap(Guaranteed, NonLifetimeEnding)
    case ConstantOwnership(kind, constraint) => CompatibilityMap(kind, constraint)
    case ConstantOrNoneOwnership(kind, constraint) => CompatibilityMap(kind, constraint)
    case AcceptsAnyOwnership => AllLive()
    case ForwardAnyOwnership =>
      var r := VisitForwardingInst(inst.operands);
      MergeAllIsJoin(ForwardedKinds(inst.operands));
      r
    case DestructureForwarding => ForwardingMap(inst.ownership)
    case ForwardConstantOrNoneOwnership(kind, constraint) =>
      AddCompatibilityConstraint(EmptyMap(), kind, constraint)
    case ConsumesInstance => VisitConsumedOperand(inst, index, InstanceOperand)
    case SelectEnumCases =>
      if v.id == inst.operands[EnumOperand].value.id then AllLive()
      else
        var r := VisitForwardingInst(inst.operands[1..]);
        MergeAllIsJoin(ForwardedKinds(inst.operands[1..]));
        r
    case TailAllocation => AllLive()
    case BranchToDestArgument => VisitBranchInst(inst, index)
    case CondBranchTrivial => AllLive()
    case SwitchForwardsOperand => ForwardingMap(v.kind)
    case ReturnMergesResults =>
      var r := VisitReturnInst(inst, index);
      if |inst.parent.directResultKinds| > 0 then
        MergeAllIsJoin(Present(inst.parent.directResultKinds));
        r
      else r
    case EndsBorrow => CompatibilityMap(Guaranteed, LifetimeEnding)
    case ThrowConsumes => CompatibilityMap(Owned, LifetimeEnding)
    case StoreRefStorage => AllLive()
    case StoreBorrowSource =>
      if v.id == inst.operands[SourceOperand].value.id then CompatibilityMap(Guaranteed, NonLifetimeEnding)
      else AllLive()
    case FullApplySite => VisitFullApply(inst, index)
    case PartialApplyCaptures =>
      if inst.onStack then AllLive() else CompatibilityMap(Owned, LifetimeEnding)
    case YieldConvention => VisitYieldInst(inst, index)
    case ConsumesSource => VisitConsumedOperand(inst, index, SourceOperand)
    case ConsumesClosure => VisitConsumedOperand(inst, index, ClosureOperand)
    case MarkDependenceValue =>
      if v.id == inst.operands[DependentValueOperand].value.id then
        if inst.ownership == None then AllLive() else ForwardingMap(inst.ownership)
      else AllLive()
    case KeyPathConsumes => CompatibilityMap(Owned, LifetimeEnding)
    case BuiltinCall(id) => VisitBuiltin(id)
  }
}
