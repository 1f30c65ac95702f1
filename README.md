# StarkNet contract-module expander, modelled in Dafny

This project models the StarkNet plugin's handling of a `#[contract]` module, from
`crates/cairo-lang-starknet/src/plugin/contract.rs`. It has four parts.

- **The structural gate** (`handle_module`). It never produces code. A module without
  `#[contract]` gets the default result. A contract without a body, without a struct named
  `Storage`, or whose first `Storage` struct lacks `#[starknet::storage]` gets exactly one
  diagnostic.
- **The first pass of `handle_contract_by_storage`**. It walks the body in source order and
  skips `#[event]` functions and the `Storage` struct. It sets `has_event` when it sees a
  struct or an enum named `Event`, or a `use` with an `Event` leaf. It builds the ordered
  use-set: every name maps to `super::<name>`, the first insertion of a key wins, and five
  fixed library bindings follow the user names. The pass ends by printing one `use` line
  per value.
- **The second pass**. Each item appends to the six lists of `ContractGenerationData`, to
  the diagnostics and to the storage code:
  - an `#[event]` function adds the event lowering;
  - an entry-point free function goes through `handle_entry_point`;
  - every function of an `#[external]` impl with a body goes through it too, as `External`,
    named `Impl::func`;
  - a `Storage` struct replaces the storage code.
- **`handle_entry_point` and `validate_l1_handler_first_parameter`**. Every entry point
  always yields one ABI row with its `mut` modifiers cleared. Its wrapper and a separator
  go to the list of its kind only when wrapper generation succeeds. An L1 handler's second
  parameter must be a `felt252` named `from_address` or `_from_address`.

## How the model is built

- **Parsed input.** The parsed module is given as data, in module `Syntax`: items,
  function declarations and parameters with their `felt252` and `mut` flags.
- **Foreign code.** The code from other crates is the `Collaborators` record of function
  values:
  - the entry-point classifier;
  - the wrapper generator;
  - event lowering;
  - the storage-struct expander;
  - the StarkNet Keccak digest.
- **Imperative code.**
  - The loops of `handle_contract_by_storage` and `handle_entry_point` are methods with
    `while`/`for` loops, in modules `UseSet`, `EntryPoints` and `Contract`.
  - `ContractGenerationData` is a class with its six list fields.
  - Each method is proved against a value-level definition of what it computes, in
    module `Generation` (`ItemsLists`, `ContractDiagnostics`, `StorageCode`,
    `ExpectedExpansion`).
  - Module `ContractProperties` proves what the expansion as a whole promises about those
    definitions.
- **Storage code.** `handle_module` checks the attribute of the *first* `Storage` struct.
  The second pass instead reassigns the storage code at every `Storage` struct (line 245),
  so the code of the *last* one is kept. The model follows the code
  (`ContractProperties.StorageCodeOfLastStorage`).

## Model

| member | source | states |
|---|---|---|
| Gate.FindStorageStruct | crates/cairo-lang-starknet/src/plugin/contract.rs:43-45 | the position found holds a struct named `Storage` and no earlier item does; none found means no item is one |
| Gate.HandleModule | crates/cairo-lang-starknet/src/plugin/contract.rs:29-69 | never code, never removal; default result without `#[contract]`; exactly one diagnostic pointing at the module, with its own message, for a missing body, a missing `Storage` struct or a first `Storage` struct without `#[starknet::storage]`; the default result exactly when the module is not a contract or is well formed |
| OrderedMaps.LookupFindsFirst | crates/cairo-lang-starknet/src/plugin/contract.rs:138-140 | a key is absent exactly when no entry has it; otherwise the lookup yields the value of the first entry with that key |
| OrderedMaps.Values | crates/cairo-lang-starknet/src/plugin/contract.rs:176-177 | the values in insertion order, one per entry |
| OrderedMaps.LookupAppend | crates/cairo-lang-starknet/src/plugin/contract.rs:157-159 | looking up entries followed by more entries finds the earlier binding first |
| OrderedMaps.InsertLookup | crates/cairo-lang-starknet/src/plugin/contract.rs:157-159 | after an insertion a key is bound as if the new pair were appended at the end |
| OrderedMaps.InsertExtends | crates/cairo-lang-starknet/src/plugin/contract.rs:157-159 | inserting only ever appends; an existing key is never overwritten; a new key is appended last |
| OrderedMaps.InsertKeepsUniqueKeys | crates/cairo-lang-starknet/src/plugin/contract.rs:157-159 | insertion keeps every key at most once |
| OrderedMaps.InsertAllSingle | crates/cairo-lang-starknet/src/plugin/contract.rs:172 | inserting a run of one pair is one insertion |
| OrderedMaps.InsertAllLookup | crates/cairo-lang-starknet/src/plugin/contract.rs:163-173 | after inserting a run of pairs each key yields its first binding among the old entries followed by the run |
| OrderedMaps.InsertAllKeepsUniqueKeys | crates/cairo-lang-starknet/src/plugin/contract.rs:163-173 | inserting a run keeps every key at most once |
| OrderedMaps.InsertAllExtends | crates/cairo-lang-starknet/src/plugin/contract.rs:163-173 | inserting a run only appends, at most one entry per pair |
| OrderedMaps.InsertAllAppend | crates/cairo-lang-starknet/src/plugin/contract.rs:163-173 | inserting two runs one after the other is inserting their concatenation |
| UseSet.AnyDeclaresEventIsHasEvent | crates/cairo-lang-starknet/src/plugin/contract.rs:123-127 | the flag computed item by item is true exactly when some item is a struct or enum named `Event` or a `use` with an `Event` leaf |
| UseSet.UsesNodeLines | crates/cairo-lang-starknet/src/plugin/contract.rs:175-180 | the extra-uses node has one `use <path>;` line per entry, in insertion order |
| UseSet.SuperBindingsAppend | crates/cairo-lang-starknet/src/plugin/contract.rs:157-159 | the `super::` bindings of two runs of names are those of each run, in order |
| UseSet.SuperBindingsLookup | crates/cairo-lang-starknet/src/plugin/contract.rs:138-140 | a name bound by a run of names maps to `super::<name>`; other names are unbound |
| UseSet.AllUseNamesMembers | crates/cairo-lang-starknet/src/plugin/contract.rs:129-160 | a name is collected exactly when some item binds it: a constant, module, impl, struct, enum or type alias name, or a `use` leaf, and never a skipped item, an extern, a trait, a free function or a missing item |
| UseSet.ExtraUsesBindings | crates/cairo-lang-starknet/src/plugin/contract.rs:157-173 | the use-set has unique keys; every collected name maps to `super::<name>`, even when a seed has the same key; other keys map as the seeds say; the user bindings come first, unchanged |
| UseSet.InsertUseLeaves | crates/cairo-lang-starknet/src/plugin/contract.rs:132-141 | the loop over a `use` item's leaves inserts `super::<leaf>` for each leaf in order, and sets the flag exactly when a leaf is `Event` |
| UseSet.ScanItem | crates/cairo-lang-starknet/src/plugin/contract.rs:123-160 | one non-skipped item inserts its names' `super::` bindings and sets the flag exactly when it declares an `Event` |
| UseSet.ScanStep | crates/cairo-lang-starknet/src/plugin/contract.rs:116-122 | one more item extends the names, the kept items, the user bindings and the event flag by that item's share; skipped items add nothing |
| UseSet.AddSeeds | crates/cairo-lang-starknet/src/plugin/contract.rs:163-173 | the five library bindings are inserted in order, under the first-insertion rule |
| UseSet.ScanItems | crates/cairo-lang-starknet/src/plugin/contract.rs:110-173 | the first pass computes the use-set, the event flag and the kept original items exactly as the reference definitions say |
| EntryPoints.FromAddressNames | crates/cairo-lang-starknet/src/plugin/contract.rs:414-416 | stripping one leading underscore gives `from_address` exactly for `from_address` and `_from_address` |
| EntryPoints.L1HandlerDiagnosticsCases | crates/cairo-lang-starknet/src/plugin/contract.rs:398-430 | fewer than two parameters give exactly the missing-parameter diagnostic on the list; otherwise at most two diagnostics, all on the second parameter, one exactly when its type is not `felt252`, one exactly when its name is neither `from_address` nor `_from_address`, the type's first; none exactly when both checks pass |
| EntryPoints.ValidateL1HandlerFirstParameter | crates/cairo-lang-starknet/src/plugin/contract.rs:398-430 | appends exactly the validator's diagnostics to those already there |
| EntryPoints.MutClearedPointwise | crates/cairo-lang-starknet/src/plugin/contract.rs:361-370 | clearing `mut` keeps the length and every parameter apart from its `mut` flag |
| EntryPoints.ClearMutModifiers | crates/cairo-lang-starknet/src/plugin/contract.rs:361-370 | the parameter loop clears `mut` on every parameter and changes nothing else |
| EntryPoints.AbiRowIsMutFree | crates/cairo-lang-starknet/src/plugin/contract.rs:357-375 | the ABI row starts with `#[<attr>]`; its declaration keeps the name, generics and parameter names; no parameter keeps `mut` |
| Generation.ContractGenerationData.constructor | crates/cairo-lang-starknet/src/plugin/contract.rs:72-80 | all six lists start empty |
| Generation.EntryPointListsSplit | crates/cairo-lang-starknet/src/plugin/contract.rs:371-393 | the ABI row followed by the wrapper outcome is what one entry point appends |
| Generation.EntryPointsListsAppend | crates/cairo-lang-starknet/src/plugin/contract.rs:217-238 | the lists of consecutive entry points are those of each run, in order |
| Generation.EntryPointsDiagnosticsAppend | crates/cairo-lang-starknet/src/plugin/contract.rs:217-238 | the diagnostics of consecutive entry points are those of each run, in order |
| Contract.PushWrapper | crates/cairo-lang-starknet/src/plugin/contract.rs:377-393 | on success the wrapper and a separator go to the list of the entry point's kind, and an L1 handler is validated; on failure the generator's diagnostics are appended and no list changes |
| Contract.HandleEntryPoint | crates/cairo-lang-starknet/src/plugin/contract.rs:335-394 | appends the entry point's ABI row and wrapper outcome to the lists, and the generic-arguments diagnostic followed by the wrapper's diagnostics |
| Contract.HandleImplItem | crates/cairo-lang-starknet/src/plugin/contract.rs:217-238 | an impl function is handled as an `External` entry point named `Impl::func`; other impl items change nothing |
| Contract.HandleExternalImpl | crates/cairo-lang-starknet/src/plugin/contract.rs:211-239 | the functions of an `#[external]` impl body are handled in order |
| Contract.HandleEventFunction | crates/cairo-lang-starknet/src/plugin/contract.rs:187-194 | an event's rewrite, when there is one, appends its two nodes to the two event lists; its diagnostics are appended |
| Contract.HandleFreeEntryPoint | crates/cairo-lang-starknet/src/plugin/contract.rs:195-210 | a free function the classifier recognises is handled as an entry point of that kind; otherwise nothing changes |
| Contract.DispatchFreeFunction | crates/cairo-lang-starknet/src/plugin/contract.rs:187-210 | a free function is an event or an entry-point candidate, as its `#[event]` attribute says |
| Contract.DispatchImpl | crates/cairo-lang-starknet/src/plugin/contract.rs:211-239 | an impl contributes only with `#[external]` and a body |
| Contract.DispatchStruct | crates/cairo-lang-starknet/src/plugin/contract.rs:240-247 | a `Storage` struct replaces the storage code and appends the expander's diagnostics; other structs change nothing |
| Contract.DispatchItem | crates/cairo-lang-starknet/src/plugin/contract.rs:186-249 | one item appends its lists and diagnostics and updates the storage code |
| Contract.DispatchItems | crates/cairo-lang-starknet/src/plugin/contract.rs:182-250 | the second pass yields the lists, diagnostics and storage code of the whole body in source order |
| Contract.HandleContractByStorage | crates/cairo-lang-starknet/src/plugin/contract.rs:93-331 | nothing without `#[contract]`; one diagnostic on the empty body without one; otherwise the file `contract`, naming the module as its contract, with the computed fragments and diagnostics, removing the original module |
| ContractProperties.EntryPointsOfAppend | crates/cairo-lang-starknet/src/plugin/contract.rs:185-250 | the entry points of two runs of items are those of each run, in source order |
| ContractProperties.EntryPointListsCases | crates/cairo-lang-starknet/src/plugin/contract.rs:371-393 | one entry point appends exactly one ABI row; a generated wrapper and a separator go to the list of its kind and no other; a failure leaves every wrapper list unchanged; the event lists never change |
| ContractProperties.SilentItems | crates/cairo-lang-starknet/src/plugin/contract.rs:211-248 | impls without `#[external]` or a body, structs other than `Storage` and every other item contribute no entry point, list entry or diagnostic, and leave the storage code alone |
| ContractProperties.ItemsListsAreEntryPointsLists | crates/cairo-lang-starknet/src/plugin/contract.rs:185-250 | apart from the event lists, the second pass appends exactly what its entry points, taken in source order, append |
| ContractProperties.AbiRowsInOrder | crates/cairo-lang-starknet/src/plugin/contract.rs:371-375 | a run of entry points yields one ABI row per entry point, in order, whatever the wrapper outcomes |
| ContractProperties.ContractAbiRows | crates/cairo-lang-starknet/src/plugin/contract.rs:357-375 | the contract's ABI trait has one row per entry point of its body, in source order, none with a `mut` parameter |
| ContractProperties.WrapperListInterleaves | crates/cairo-lang-starknet/src/plugin/contract.rs:377-389 | each wrapper list alternates the generated wrappers of the entry points of its kind, in order, with separators |
| ContractProperties.ContractWrapperLists | crates/cairo-lang-starknet/src/plugin/contract.rs:185-250 | the contract's wrapper list of each kind alternates the generated wrappers of its entry points of that kind with separators |
| ContractProperties.ImplEntryPointsAreExternal | crates/cairo-lang-starknet/src/plugin/contract.rs:217-238 | each function of an `#[external]` impl is one `External` entry point named `Impl::func`, in source order |
| ContractProperties.EventListsOfItems | crates/cairo-lang-starknet/src/plugin/contract.rs:187-194 | the two event lists hold, position by position, the halves of each event rewrite made, in source order |
| ContractProperties.LastStorage | crates/cairo-lang-starknet/src/plugin/contract.rs:240-247 | the position found holds a `Storage` struct and no later item does; none found means there is none |
| ContractProperties.StorageCodeWithoutStorage | crates/cairo-lang-starknet/src/plugin/contract.rs:184 | without a `Storage` struct the storage code is empty text |
| ContractProperties.StorageCodeIsLastStorage | crates/cairo-lang-starknet/src/plugin/contract.rs:240-247 | the storage code is the expansion of the last `Storage` struct |
| ContractProperties.StorageCodeOfLastStorage | crates/cairo-lang-starknet/src/plugin/contract.rs:240-247 | a last `Storage` struct exists exactly when the first one does, and its expansion is the storage code; empty text otherwise |
| ContractProperties.ContractDiagnosticsAppend | crates/cairo-lang-starknet/src/plugin/contract.rs:185-250 | the diagnostics of two runs of items are those of each run, in source order |
| ContractProperties.ContractDiagnosticsEmpty | crates/cairo-lang-starknet/src/plugin/contract.rs:185-250 | the second pass raises nothing exactly when no item raises anything |
| ContractProperties.EntryPointDiagnosticsCases | crates/cairo-lang-starknet/src/plugin/contract.rs:346-393 | generic parameters put their diagnostic first; a failed wrapper adds only the generator's diagnostics, with no L1-handler check; a generated entry point raises nothing exactly when it has no generics and, for an L1 handler, a valid second parameter |

## Left out

- Finding the enclosing module through the syntax tree (lines 87-91) is left out. The module is a direct input to `Contract.HandleContractByStorage`.
- The output template text, the `RewriteNode` interpolation and the `PatchBuilder` patch map (lines 256-317) are left out. They belong to a foreign library. The model stops at the fragments the template interpolates (`ContractCode`).
- `starknet_keccak` (lines 253-255) is a field of `Collaborators` applied to the module's text. The hash function itself is foreign.
- `generate_entry_point_wrapper`, `EntryPointKind::try_from_function_with_body`, `handle_event` and `handle_storage_struct` are foreign. They are function-valued fields of `Collaborators`, with `Result` and `Option` outcomes.
- `is_felt252`, `is_mut_param` and `get_all_path_leafs` are foreign. Their answers are fields of the parsed input: `Param.isFelt252`, `Param.isMut` and `Use.leaves`.
- The `ImplAlias` arm (line 155) panics with `todo!()`. `UseSet.ScanItems` and `Contract.HandleContractByStorage` require that no item is an `ImplAlias`.
- `kept_original_items` and `contract_name` are computed, but the template has no placeholder for them. The model computes the kept items (`UseSet.KeptItems`) but drops them from the output record.
- Stable pointers are modelled by what they point at (a module, an empty body, a generic-parameter list, a parameter, a parameter list), not by syntax-tree positions.
