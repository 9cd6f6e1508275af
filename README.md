# Operand ownership classification in Swift SIL

This project models the operand-ownership classifier of the Swift
compiler's intermediate language, SIL. The classifier lives in
`lib/SIL/IR/OperandOwnership.cpp`. Given one operand of one instruction,
`Operand::getOwnershipKindMap` answers with a compatibility map. The map
lists the ownership kinds the operand's value may have: `None`, `Unowned`,
`Owned` or `Guaranteed`. For each kind it also says whether the use ends the
value's lifetime. The ownership verifier then checks every use against this
map.

The model is purely functional, like the source. Every visitor is a `switch`
or an `if` over fixed facts, and it returns a freshly built map.

- `ownership.dfy` (module `OwnershipKinds`): ownership kinds, lifetime
  constraints, the forwarding constraint and the merge of kinds. The merge is
  proved to be the least upper bound in the flat order with `None` at the
  bottom.
- `kind_map.dfy` (module `KindMaps`): the compatibility map and its three
  shapes. `EmptyMap()` accepts nothing, `AllLive()` accepts everything as a
  non-ending use, and a one-entry map accepts a single kind.
- `sil.dfy` (module `Sil`): the facts the classifier reads about an
  instruction, as plain fields:
  - the instruction kind and its operands;
  - the kind recorded by forwarding instructions;
  - the kinds of the destination block's arguments;
  - `[on_stack]`;
  - apply-site conventions;
  - the enclosing function's direct result kinds and yield conventions.
- `builtins.dfy` (module `BuiltinClassifier`): the builtin sub-classifier.
- `classifier.dfy` (module `OperandOwnership`):
  - the visitor each instruction kind gets, written as the table `PolicyOf`
    (one policy per macro family or custom visitor);
  - the custom visitors;
  - the entry point `GetOwnershipKindMap`. Its contract states the invariants
    that hold for every classifiable operand.
- `rules.dfy` (module `ClassifierRules`): what the entry point answers for
  each family, and properties that hold across families. The interior-pointer
  and destructure families are stated over their instruction kinds. The other
  families are stated over their policy, and `PolicyOf` lists the kinds each
  policy covers.
- `scenarios.dfy` (module `OwnershipScenarios`): results on small concrete
  instructions.

The header declarations the classifier relies on are not part of this model:
`ValueOwnershipKind::merge`, `getForwardingLifetimeConstraint` and the
`OperandOwnershipKindMap` operations. They are written out as definitions in
`ownership.dfy` and `kind_map.dfy` and are modelling assumptions. Every
other result follows from them and from `OperandOwnership.cpp`.

## Model

| member | source | states |
|---|---|---|
| OwnershipKinds.ForwardingLifetimeConstraint | lib/SIL/IR/OperandOwnership.cpp:324-327 | a forwarded value's use ends its lifetime exactly when the value is owned |
| OwnershipKinds.IsCompatibleWith | lib/SIL/IR/OperandOwnership.cpp:310-321 | two kinds are compatible exactly when some kind lies above both, i.e. when one of them is `None` or they are equal |
| OwnershipKinds.Merge | lib/SIL/IR/OperandOwnership.cpp:310-318 | two kinds merge exactly when they are compatible, and the result is their least upper bound |
| OwnershipKinds.MergeUnitIdempotentAndConflict | lib/SIL/IR/OperandOwnership.cpp:310-321 | merge with `None` gives the other kind; merging a kind with itself gives that kind; owned does not merge with guaranteed or unowned |
| OwnershipKinds.MergeCommutative | lib/SIL/IR/OperandOwnership.cpp:310-318 | the merge of two kinds does not depend on their order |
| OwnershipKinds.MergeAssociative | lib/SIL/IR/OperandOwnership.cpp:310-318 | merging three kinds gives the same result, failure included, whichever pair is merged first |
| OwnershipKinds.MergeAll | lib/SIL/IR/OperandOwnership.cpp:310-318 | the merge of a range, folded from `None` and skipping type-dependent entries, is either `None` or one of the kinds present in the range; `MergeAllIsJoin` characterises it fully |
| OwnershipKinds.MergeAllIsJoin | lib/SIL/IR/OperandOwnership.cpp:310-321 | merging a range fails exactly when two present kinds conflict; otherwise it yields the least kind above every present kind; type-dependent (absent) entries are skipped |
| OwnershipKinds.MergeAllDependsOnlyOnPresentKinds | lib/SIL/IR/OperandOwnership.cpp:310-318 | the merge of a range depends only on the set of kinds present, not on their order or repetition |
| KindMaps.EmptyMap | lib/SIL/IR/OperandOwnership.cpp:319-321 | the default-constructed map accepts no kind |
| KindMaps.AllLive | lib/SIL/IR/OperandOwnership.cpp:259-263 | `allLive()` accepts every kind, each as a use that does not end the lifetime |
| KindMaps.CompatibilityMap | lib/SIL/IR/OperandOwnership.cpp:152-160 | `compatibilityMap(kind, constraint)` accepts exactly `kind`, with that constraint |
| KindMaps.AddCompatibilityConstraint | lib/SIL/IR/OperandOwnership.cpp:378-382 | adding a constraint accepts the new kind as well, with its constraint, and keeps every earlier entry |
| KindMaps.CompatibilityMapOf | lib/SIL/IR/OperandOwnership.cpp:580-583 | a map built from a list of pairs accepts exactly the listed kinds, each with its listed constraint |
| KindMaps.ForwardingMap | lib/SIL/IR/OperandOwnership.cpp:324-327 | `compatibilityMap(kind, kind.getForwardingLifetimeConstraint())`, repeated at lines 438-439, 455-456, 469-470, 477-478, 510 and 778-779: accepts exactly `kind`, and consumes it exactly when it is owned |
| BuiltinClassifier.VisitBuiltin | lib/SIL/IR/OperandOwnership.cpp:802-1008 | LLVM intrinsics and any-ownership builtins are `allLive()`; only COWBufferForReading and UnsafeGuaranteed consume, and they consume only an owned value; CancelAsyncTask borrows a guaranteed value; GetCurrentAsyncTask and builtins lowered to SIL instructions are never classified |
| OperandOwnership.PolicyOf | lib/SIL/IR/OperandOwnership.cpp:99-394 | the table from instruction kind to visitor: each macro family of lines 99-394 and each custom visitor of lines 396-1013 is one policy. It has no contract of its own; it is the table, and `ConstantPoliciesUseForwardingConstraint` and the `ClassifierRules` lemmas state what each policy answers |
| OperandOwnership.IsAddressOrTrivial | lib/SIL/IR/OperandOwnership.cpp:70-74 | `isAddressOrTrivialType()`: the value is an address, or its kind is `None`. It has no contract of its own; `VisitReturnInst` and `VisitYieldInst` state what it selects |
| OperandOwnership.ConstantPoliciesUseForwardingConstraint | lib/SIL/IR/OperandOwnership.cpp:152-257 | every fixed (kind, constraint) pair in the constant and constant-or-none families pairs the kind with its own forwarding constraint |
| OperandOwnership.ForwardedKinds | lib/SIL/IR/OperandOwnership.cpp:311-318 | the merged range has one entry per operand: absent for a type-dependent operand, the operand's kind otherwise |
| OperandOwnership.VisitForwardingInst | lib/SIL/IR/OperandOwnership.cpp:303-328 | a failed merge gives the empty map; a merged `None` gives `allLive()`; a merged kind K gives exactly K with K's forwarding constraint; each outcome holds exactly when its condition does |
| OperandOwnership.CheckTerminatorArgumentMatchesDestBB | lib/SIL/IR/OperandOwnership.cpp:431-440 | a terminator operand accepts exactly the destination argument's kind, and consumes it only when it is owned |
| OperandOwnership.VisitBranchInst | lib/SIL/IR/OperandOwnership.cpp:442-457 | a `br` operand accepts exactly the destination argument's kind, and consumes it exactly when that kind is owned or guaranteed |
| OperandOwnership.VisitReturnInst | lib/SIL/IR/OperandOwnership.cpp:482-511 | a trivial operand is `allLive()`; otherwise the map is empty exactly when there are no direct results or their kinds conflict, and otherwise it requires exactly the merged result kind with its forwarding constraint |
| OperandOwnership.VisitCallee | lib/SIL/IR/OperandOwnership.cpp:551-587 | the callee accepts an owned value unless it is `@in_guaranteed`; it is consumed exactly for `@in`, `@in_constant` and `@owned`, and then only as owned; it is `allLive()` exactly when it is unowned or a non-escaping guaranteed closure; an escaping guaranteed callee is treated like a guaranteed parameter |
| OperandOwnership.VisitApplyParameter | lib/SIL/IR/OperandOwnership.cpp:589-603 | the map accepts exactly the required kind and owned; the required kind has the required constraint; owned is then only borrowed; the map consumes exactly when the requirement does |
| OperandOwnership.VisitApplyArgument | lib/SIL/IR/OperandOwnership.cpp:622-667 | an argument always accepts an owned value; it is `allLive()` exactly for unowned, `@in_constant`, inout, and lowered-address `@in`/`@in_guaranteed` parameters; it consumes exactly for `@owned`, and for `@in` without lowered addresses, and then only as owned; otherwise it is a widened guaranteed parameter |
| OperandOwnership.VisitFullApply | lib/SIL/IR/OperandOwnership.cpp:606-669 | the callee operand follows the callee rule; indirect results are `allLive()`; an operand gets the empty map exactly when it is type-dependent; an argument follows its parameter's convention |
| OperandOwnership.VisitYieldInst | lib/SIL/IR/OperandOwnership.cpp:696-727 | an address or trivial value is `allLive()`; otherwise the operand is classified exactly as a call argument with the yield's convention and addresses not lowered |
| OperandOwnership.VisitConsumedOperand | lib/SIL/IR/OperandOwnership.cpp:729-769 | the operand is consumed as owned exactly when it is the designated operand's value; otherwise it is `allLive()` |
| OperandOwnership.GetOwnershipKindMap | lib/SIL/IR/OperandOwnership.cpp:1019-1022 | for every classifiable operand, only owned and guaranteed uses can end a lifetime, and a guaranteed use ends it only at `end_borrow` or on a `br` to a guaranteed argument |
| ClassifierRules.NeverVisitedInstructionsAreFatal | lib/SIL/IR/OperandOwnership.cpp:99-138 | instructions that are invalid in ownership SSA or have no operands, including the retain instructions of loadable reference storage, are never classified |
| ClassifierRules.InteriorPointerProjectionsBorrow | lib/SIL/IR/OperandOwnership.cpp:140-150 | stated over the instruction kinds: `ref_element_addr` and `ref_tail_addr` require a guaranteed value and do not consume it |
| ClassifierRules.ConstantOwnershipRule | lib/SIL/IR/OperandOwnership.cpp:152-257 | each constant and constant-or-none instruction, including the reference-storage loads, releases and unchecked conversions, requires its one fixed kind, with that kind's forwarding constraint |
| ClassifierRules.StoreStorageKeepsOperandsLive | lib/SIL/IR/OperandOwnership.cpp:527-539 | stores to never- or sometimes-loadable reference storage are `allLive()`, and no other storage category has such a store |
| ClassifierRules.AcceptsAnyOwnershipRule | lib/SIL/IR/OperandOwnership.cpp:259-300 | the accepts-any family, including reference-storage conversions and strong copies, is `allLive()` |
| ClassifierRules.ForwardAnyOwnershipRule | lib/SIL/IR/OperandOwnership.cpp:330-351 | the forward-any family merges the kinds of all its operands |
| ClassifierRules.DestructureRequiresRecordedKind | lib/SIL/IR/OperandOwnership.cpp:353-368 | `destructure_struct` and `destructure_tuple` accept exactly the recorded kind with its forwarding constraint, and are never `allLive()`, not even for `None` |
| ClassifierRules.ForwardConstantOrNoneRule | lib/SIL/IR/OperandOwnership.cpp:370-394 | aggregate extracts and `mark_uninitialized` accept exactly their fixed kind, with its constraint |
| ClassifierRules.DeallocPartialRefConsumesInstance | lib/SIL/IR/OperandOwnership.cpp:396-405 | `dealloc_partial_ref` consumes an owned value exactly at its instance; its other operands are `allLive()` |
| ClassifierRules.StoresConsumeTheirSource | lib/SIL/IR/OperandOwnership.cpp:729-769 | `store`, `assign` and `assign_by_wrapper` consume their source, and `copy_block_without_escaping` consumes its closure, each as owned and exactly when the operand carries that value; every other operand is `allLive()` |
| ClassifierRules.StoreBorrowBorrowsSource | lib/SIL/IR/OperandOwnership.cpp:541-548 | `store_borrow` requires its source to be guaranteed and not consumed; the destination is `allLive()` |
| ClassifierRules.SelectEnumForwardsCaseValues | lib/SIL/IR/OperandOwnership.cpp:407-414 | the enum operand of `select_enum` is `allLive()`; the case values are merged as a forwarding instruction without the enum operand |
| ClassifierRules.TailAllocationKeepsOperandsLive | lib/SIL/IR/OperandOwnership.cpp:416-429 | the tail-allocation operands of `alloc_ref` and `alloc_ref_dynamic` are `allLive()` |
| ClassifierRules.BranchRules | lib/SIL/IR/OperandOwnership.cpp:431-464 | `br` accepts exactly the destination argument's kind, consuming owned and guaranteed values; it differs from the default terminator rule exactly for a guaranteed argument; `cond_br` is `allLive()` |
| ClassifierRules.SwitchForwardsOperandKind | lib/SIL/IR/OperandOwnership.cpp:466-479 | `switch_enum` and `checked_cast_br` accept exactly the operand's own kind, consuming it exactly when it is owned |
| ClassifierRules.ReturnRule | lib/SIL/IR/OperandOwnership.cpp:482-511 | `return` is classified by the enclosing function's direct results |
| ClassifierRules.ReturnOfNoneResultsIsNotAllLive | lib/SIL/IR/OperandOwnership.cpp:482-511 | when every direct result has kind `None`, a non-trivial returned value must itself be `None`; unlike forwarding, the map is not `allLive()` |
| ClassifierRules.EndBorrowEndsGuaranteed | lib/SIL/IR/OperandOwnership.cpp:513-519 | `end_borrow` requires a guaranteed value and ends its lifetime |
| ClassifierRules.ThrowAndKeyPathConsumeOwned | lib/SIL/IR/OperandOwnership.cpp:521-525 | `throw` and `keypath` consume an owned value |
| ClassifierRules.PartialApplyCapturesOwned | lib/SIL/IR/OperandOwnership.cpp:686-695 | `partial_apply` consumes owned captures; `partial_apply [on_stack]` is `allLive()` |
| ClassifierRules.MarkDependenceForwardsValue | lib/SIL/IR/OperandOwnership.cpp:771-787 | the base of `mark_dependence` is `allLive()`; its value is `allLive()` exactly when the recorded kind is `None`, and otherwise requires that kind with its forwarding constraint |
| ClassifierRules.FullApplyRule | lib/SIL/IR/OperandOwnership.cpp:671-684 | `apply`, `try_apply` and `begin_apply` share the full-apply rule |
| ClassifierRules.YieldMatchesApplyArgument | lib/SIL/IR/OperandOwnership.cpp:696-727 | a yielded value that is not an address or trivial is classified as a call argument of the same convention, with addresses not lowered |
| ClassifierRules.BuiltinRule | lib/SIL/IR/OperandOwnership.cpp:1010-1013 | `builtin` defers to the builtin sub-classifier |
| ClassifierRules.ApplyOperandsAcceptOwned | lib/SIL/IR/OperandOwnership.cpp:606-669 | every operand of an apply site except the callee and type-dependent operands accepts an owned value |
| ClassifierRules.EmptyMapOnlyFromMergeOrTypeDependence | lib/SIL/IR/OperandOwnership.cpp:303-669 | the empty map comes only from a merge (forwarding, `select_enum` case values, `return`) or from a type-dependent apply operand |
| ClassifierRules.ConsumingUsesAcceptOneKind | lib/SIL/IR/OperandOwnership.cpp:1019-1022 | a use that ends a lifetime accepts exactly one kind: an owned value it consumes, or a guaranteed value whose borrow it ends |
| ClassifierRules.ForwardingConsumesOnlyOwned | lib/SIL/IR/OperandOwnership.cpp:303-328 | a forwarding map that consumes is the one-entry owned map |
| ClassifierRules.ApplyConsumesOnlyOwned | lib/SIL/IR/OperandOwnership.cpp:606-669 | a full-apply operand that is consumed is consumed only as owned |
| ClassifierRules.ForwardingIgnoresOperandOrder | lib/SIL/IR/OperandOwnership.cpp:303-328 | permuting a forwarding instruction's operands does not change its map |
| ClassifierRules.TypeDependentOperandsAreIgnored | lib/SIL/IR/OperandOwnership.cpp:311-318 | adding a type-dependent operand does not change a forwarding instruction's map |
| ClassifierRules.UniformOperandsForwardTheirKind | lib/SIL/IR/OperandOwnership.cpp:303-328 | when all present operands share a kind K other than `None`, the map is exactly K with K's forwarding constraint |
| ClassifierRules.ConflictingOperandsRejectEverything | lib/SIL/IR/OperandOwnership.cpp:303-321 | two present operands with incompatible kinds give the empty map |
| ClassifierRules.ForwardedOperandsMatchTheMerge | lib/SIL/IR/OperandOwnership.cpp:303-328 | when the merge succeeds, every present operand either has kind `None` or has a kind the map accepts |
| OwnershipScenarios.StructOfOwnedValuesConsumesOwned | lib/SIL/IR/OperandOwnership.cpp:335-336 | a `struct` of two owned values consumes each as owned |
| OwnershipScenarios.StructOfMixedValuesRejectsEverything | lib/SIL/IR/OperandOwnership.cpp:335-336 | a `struct` of an owned and a guaranteed value gives both operands the empty map |
| OwnershipScenarios.GuaranteedArgumentOfNonEscapingCallee | lib/SIL/IR/OperandOwnership.cpp:574-583 | for a non-escaping guaranteed callee, the callee operand is `allLive()`, but a guaranteed argument accepts only guaranteed and owned values, and consumes neither |
| OwnershipScenarios.OwnedArgumentRejectsGuaranteed | lib/SIL/IR/OperandOwnership.cpp:626-629 | an `@owned` argument consumes an owned value and rejects a guaranteed one |
| OwnershipScenarios.SelectEnumWithOwnedCases | lib/SIL/IR/OperandOwnership.cpp:407-414 | in `select_enum` with owned case values, the enum operand is `allLive()` and each case value is consumed as owned |
| OwnershipScenarios.EndBorrowOfAnyBorrow | lib/SIL/IR/OperandOwnership.cpp:513-519 | `end_borrow` ends a guaranteed value's borrow whatever else the instruction holds |

### Behaviour worth noting

These results follow the code as written.

- An argument bound to a `@guaranteed` parameter is never `allLive()`, even
  when the callee is a non-escaping closure. The non-escape exemption applies
  only to the callee operand (lines 574-576). The argument gets the widened
  guaranteed map (lines 660-665).
- A merged `None` gives `allLive()` for forwarding instructions (lines 324-325).
  For `return` it gives the one-entry map of `None` (line 510). For
  destructures it also gives the one-entry map of `None` (lines 355-359).
- `checkTerminatorArgumentMatchesDestBB` (lines 431-440) is defined but
  never called. `br` inlines its own version, which differs only for a
  guaranteed destination argument.
- An `@in_constant` callee is consumed (lines 555-560). An `@in_constant`
  argument is `allLive()` (lines 655-658).
- `CONSTANT_OR_NONE_OWNERSHIP_INST` (lines 243-251) has the same body as
  `CONSTANT_OWNERSHIP_INST` (lines 154-161). Both return the one-entry map of
  their listed kind, so `checked_cast_value_br` is classified exactly like a
  constant-ownership instruction. Whether it also accepts a `None` value is
  decided by the header's `canAcceptKind`, not by this file.
- The flagged entries are modelled as written: `unchecked_bitwise_cast` and
  `witness_method` (lines 268-269), and `return` and `yield` (lines 481 and
  697).

## Left out

- IR data structures are inputs, not behaviour. This covers instructions,
  basic blocks, function conventions, type lowering, `isTypeDependentOperand`,
  `isTrivial`, `isNoEscape`, `useLoweredAddresses` and `getCalleeArgIndex`.
  Each query becomes a field of `Instruction`, `ApplySite` or
  `EnclosingFunction`.
- The role of an apply operand is an input fact, `ApplyOperandRole`: callee,
  indirect result, argument with its parameter convention, or type operand.
- Accessors such as `getSrc()`, `getInstance()`, `getClosure()`,
  `getValue()` and `getEnumOperand()` become fixed operand positions. As in
  the source, they compare the values' identities (`Value.id`), not operand
  identity. For those rules `Classifiable` requires `SameIdSameValue`: one
  `id` names one value record.
- Fatal paths are excluded by the precondition `Classifiable`. They are not
  returned as results. These are:
  - `report_fatal_error` for never-visited instructions (lines 102-108);
  - `llvm_unreachable` for an inout callee (line 568) and an inout yield
    (line 724);
  - the two unreachable builtin families (lines 992-1005).
- The member lists of `ReferenceStorage.def` and `Builtins.def` are not part
  of this model.
  - Reference storage is modelled by its category: never-, sometimes- and
    always-loadable, and unchecked. `Declared` says which storage
    instructions each category generates.
  - Builtins are modelled by their classification category. The many
    any-ownership builtins, floating-point ones included, form one category.
- Internal `assert`s that do not select a result are not modelled. These
  check a non-zero operand count, `isOwnershipForwardingInst`,
  `isGuaranteedForwardingInst`, `isSILIndirect` and that the operand's kind
  matches its value's kind. A classified operand always exists, since the
  index is below the operand count.
- Diagnostic printing to `llvm::errs()`.
- `ValueOwnershipKind::merge`, `getForwardingLifetimeConstraint`, `canAcceptKind`
  and the compatibility-map constructors are declared in headers that are not
  part of this model. Their definitions here are assumptions, and acceptance
  is modelled as membership in the map.
- KindMaps.CompatibilityMap, KindMaps.AddCompatibilityConstraint and
  OperandOwnership.VisitApplyParameter: a map accepts exactly the kinds listed
  in it, so every map other than `allLive()` rejects a `None` (trivial) value
  unless `None` is listed. The source suggests that the header or the
  ownership verifier accepts `None` more widely. Lines 243-251 and 370 name
  families that take "constant or none" ownership but add only one kind.
  Lines 589-591 allow trivial enum cases in non-trivial argument positions.
  Lines 663-664 say trivial types are handled earlier, but `visitFullApply`
  has no such check. Under this model a `None` value is rejected by
  `store %x to [trivial]`, by `tuple_extract` of a trivial tuple and by an
  `Optional.none` argument to a `@guaranteed` parameter. The model does not
  promise what the header's `canAcceptKind` does with `None`.
- `compatibleWithOwnership` and `hasExactOwnership` (lines 62-68) are never
  called by any visitor.
