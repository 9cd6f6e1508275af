/**
 * The builtin sub-classifier: the ownership a builtin call's operands may
 * carry, keyed by the builtin's identifier.
 */
module BuiltinClassifier {
  import opened OwnershipKinds
  import opened KindMaps
  import opened Sil

  /**
   * GetCurrentAsyncTask takes no operands, and builtins that are lowered to
   * dedicated instructions never reach ownership SSA: classifying an operand
   * of either is a fatal error.
   */
  predicate BuiltinClassifiable(id: BuiltinId)
  {
    id != GetCurrentAsyncTask && id != LoweredToSILInstruction
  }

  function VisitBuiltin(id: BuiltinId): (r: KindMap)
    requires BuiltinClassifiable(id)
    // trivial data and LLVM intrinsics do not traffic in ownership
    ensures r == AllLive() <==> id == AnyOwnershipBuiltin || id == LLVMIntrinsic
    // no builtin yields a guaranteed value, so only an owned operand can be consumed
    ensures forall k :: r.CanAcceptKind(k) && r.GetLifetimeConstraint(k) == LifetimeEnding ==> k == Owned
    ensures r.HasLifetimeEndingUse() <==> id == COWBufferForReading || id == UnsafeGuaranteed
    ensures r.HasLifetimeEndingUse() ==> r == CompatibilityMap(Owned, LifetimeEnding)
    ensures id == CancelAsyncTask ==> r == CompatibilityMap(Guaranteed, NonLifetimeEnding)
  {
    ShapesDiffer(Owned, LifetimeEnding);
    ShapesDiffer(Guaranteed, NonLifetimeEnding);
    match id
    case AnyOwnershipBuiltin => AllLive()
    case LLVMIntrinsic => AllLive()
    case COWBufferForReading => CompatibilityMap(Owned, LifetimeEnding)
    case UnsafeGuaranteed => CompatibilityMap(Owned, LifetimeEnding)
    case CancelAsyncTask => CompatibilityMap(Guaranteed, NonLifetimeEnding)
  }
}
