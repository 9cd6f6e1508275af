/**
 * The facts about an instruction and its operands that the operand-ownership
 * classifier queries. The IR data structures themselves (instructions, basic
 * blocks, function conventions, type lowering) are not part of this model:
 * each query the classifier makes of them is a plain field here.
 */
module Sil {
  import opened OwnershipKinds

  /**
   * Categories of reference storage (weak, unowned, unmanaged, ...). The
   * member list of ReferenceStorage.def is not part of this model; only the
   * category of a storage kind decides which instructions exist for it.
   */
  datatype RefStorageCategory = NeverLoadable | SometimesLoadable | AlwaysLoadable | Unchecked

  predicate AlwaysOrSometimesLoadable(s: RefStorageCategory)
  {
    s == AlwaysLoadable || s == SometimesLoadable
  }

  predicate NeverOrSometimesLoadable(s: RefStorageCategory)
  {
    s == NeverLoadable || s == SometimesLoadable
  }

  /**
   * Builtin operations, by the category that decides their ownership. The
   * member list of Builtins.def is not part of this model.
   */
  datatype BuiltinId =
    | AnyOwnershipBuiltin       // arithmetic, comparisons, casts, atomics, array copies, ...
    | LLVMIntrinsic
    | COWBufferForReading
    | UnsafeGuaranteed
    | CancelAsyncTask
    | GetCurrentAsyncTask
    | LoweredToSILInstruction   // a BUILTIN_SIL_OPERATION

  /** The parameter conventions of a function type. */
  datatype Convention =
    | IndirectIn | IndirectInConstant | IndirectInGuaranteed
    | IndirectInout | IndirectInoutAliasable
    | DirectOwned | DirectUnowned | DirectGuaranteed

  predicate IsInout(c: Convention)
  {
    c == IndirectInout || c == IndirectInoutAliasable
  }

  /** Instruction kinds of the IR, one constructor per kind the classifier visits. */
  datatype InstKind =
    // not valid in ownership SSA, or without operands
    | AllocBox | AllocExistentialBox | AllocGlobal | AllocStack
    | DifferentiabilityWitnessFunction | FloatLiteral | FunctionRef
    | DynamicFunctionRef | PreviousDynamicFunctionRef | GlobalAddr | GlobalValue
    | BaseAddrForOffset | IntegerLiteral | Metatype | ObjCProtocol | RetainValue
    | RetainValueAddr | StringLiteral | StrongRetain | Unreachable | Unwind
    | ReleaseValue | ReleaseValueAddr | StrongRelease | GetAsyncContinuation
    | StrongRetainStorage(storage: RefStorageCategory)
    | StorageRetain(storage: RefStorageCategory)
    // interior pointers
    | RefElementAddr | RefTailAddr
    // constant ownership
    | OpenExistentialValue | OpenExistentialBoxValue | OpenExistentialBox | HopToExecutor
    | AutoreleaseValue | DeallocBox | DeallocExistentialBox | DeallocRef | DestroyValue
    | EndLifetime | BeginCOWMutation | EndCOWMutation
    | AwaitAsyncContinuation | AbortApply | AddressToPointer | BeginAccess
    | BeginUnpairedAccess | BindMemory | CheckedCastAddrBranch | CondFail | CopyAddr
    | DeallocStack | DebugValueAddr | DeinitExistentialAddr | DestroyAddr | EndAccess
    | EndApply | EndUnpairedAccess | GetAsyncContinuationAddr | IndexAddr
    | IndexRawPointer | InitBlockStorageHeader | InitEnumDataAddr | InitExistentialAddr
    | InitExistentialMetatype | InjectEnumAddr | IsUnique | Load | LoadBorrow
    | MarkFunctionEscape | ObjCExistentialMetatypeToObject | ObjCMetatypeToObject
    | ObjCToThickMetatype | OpenExistentialAddr | OpenExistentialMetatype
    | PointerToAddress | PointerToThinFunction | ProjectBlockStorage
    | ProjectValueBuffer | RawPointerToRef | SelectEnumAddr | SelectValue
    | StructElementAddr | SwitchEnumAddr | SwitchValue | TailAddr
    | ThickToObjCMetatype | ThinFunctionToPointer | ThinToThickFunction
    | TupleElementAddr | UncheckedAddrCast | UncheckedRefCastAddr
    | UncheckedTakeEnumDataAddr | UnconditionalCheckedCastAddr | AllocValueBuffer
    | DeallocValueBuffer
    | LoadStorage(storage: RefStorageCategory)
    | StorageRelease(storage: RefStorageCategory)
    | StorageToRef(storage: RefStorageCategory)
    // constant or none ownership
    | CheckedCastValueBranch | UnconditionalCheckedCastValue | InitExistentialValue
    | DeinitExistentialValue
    // accepts any ownership
    | BeginBorrow | CopyValue | DebugValue | FixLifetime | UncheckedBitwiseCast
    | WitnessMethod | ProjectBox | DynamicMethodBranch | UncheckedTrivialBitCast
    | ExistentialMetatype | ValueMetatype | UncheckedOwnershipConversion
    | ValueToBridgeObject | IsEscapingClosure | ClassMethod | ObjCMethod
    | ObjCSuperMethod | SuperMethod | BridgeObjectToWord | ClassifyBridgeObject
    | CopyBlock | RefToRawPointer | SetDeallocating | ProjectExistentialBox
    | UnmanagedRetainValue | UnmanagedReleaseValue | UnmanagedAutoreleaseValue
    | ConvertEscapeToNoEscape
    | RefToStorage(storage: RefStorageCategory)
    | StrongCopyStorageValue(storage: RefStorageCategory)
    // forwarding
    | Tuple | Struct | Object | Enum | OpenExistentialRef | Upcast | UncheckedRefCast
    | ConvertFunction | RefToBridgeObject | BridgeObjectToRef | UnconditionalCheckedCast
    | UncheckedEnumData | InitExistentialRef | DifferentiableFunction | LinearFunction
    | UncheckedValueCast
    | DestructureStruct | DestructureTuple
    | TupleExtract | StructExtract | DifferentiableFunctionExtract
    | LinearFunctionExtract | MarkUninitialized
    // instructions with their own rule
    | DeallocPartialRef | SelectEnum | AllocRef | AllocRefDynamic | Branch | CondBranch
    | SwitchEnum | CheckedCastBranch | Return | EndBorrow | Throw
    | StoreStorage(storage: RefStorageCategory)
    | StoreBorrow | Apply | TryApply | BeginApply | PartialApply | Yield | Assign
    | AssignByWrapper | Store | CopyBlockWithoutEscaping | MarkDependence | KeyPath
    | Builtin(id: BuiltinId)

  /**
   * The reference-storage instructions that the storage macros generate for
   * each category; every other instruction kind always exists.
   */
  predicate Declared(k: InstKind)
  {
    match k
    case StrongRetainStorage(s) => AlwaysOrSometimesLoadable(s)
    case StorageRetain(s) => AlwaysOrSometimesLoadable(s)
    case LoadStorage(s) => NeverOrSometimesLoadable(s)
    case StorageRelease(s) => AlwaysOrSometimesLoadable(s)
    case StorageToRef(s) => s != NeverLoadable
    case RefToStorage(s) => s != NeverLoadable
    case StrongCopyStorageValue(s) => s != NeverLoadable
    case StoreStorage(s) => NeverOrSometimesLoadable(s)
    case _ => true
  }

  /**
   * An SSA value: its identity, its ownership kind and what its type is.
   * Operand-position tests compare identities (`id`) only, as the source
   * compares `SILValue`s.
   */
  datatype Value = Value(id: nat, kind: OwnershipKind, isAddress: bool, isTrivial: bool)

  /** One use of a value by an instruction. */
  datatype Operand = Operand(value: Value, typeDependent: bool)

  /** What the apply site reports about one of its operands. */
  datatype ApplyOperandRole =
    | CalleeOperand
    | IndirectResultOperand
    | ArgumentOperand(convention: Convention)   // convention of the matching parameter
    | TypeOperand                                 // a type-dependent operand, no parameter

  /** The facts of a full apply site (apply, try_apply, begin_apply). */
  datatype ApplySite = ApplySite(
    roles: seq<ApplyOperandRole>,     // aligned with the instruction's operands
    calleeConvention: Convention,     // the callee's convention for itself
    calleeIsNoEscape: bool,
    useLoweredAddresses: bool)

  /** The facts of the function an instruction belongs to. */
  datatype EnclosingFunction = EnclosingFunction(
    directResultKinds: seq<OwnershipKind>,   // ownership kinds of the direct results
    yieldConventions: seq<Convention>)

  datatype Instruction = Instruction(
    kind: InstKind,
    operands: seq<Operand>,
    ownership: OwnershipKind,          // the forwarding ownership the instruction records
    destArgKinds: seq<OwnershipKind>,  // br: kinds of the destination block's arguments
    onStack: bool,                     // partial_apply [on_stack]
    apply: ApplySite,
    parent: EnclosingFunction)
}
