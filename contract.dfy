/**
 * The contract expansion proper (`handle_contract_by_storage` and `handle_entry_point`):
 * after the first pass (module UseSet), a second pass dispatches every item of the body
 * into a `ContractGenerationData` — event functions, entry points (free functions and the
 * functions of `#[external]` impls) and the `Storage` struct — and the fragments are
 * handed to the output template. Each method is proved against module Generation.
 */
module Contract {
  import opened Wrappers
  import opened Syntax
  import opened UseSet
  import opened EntryPoints
  import opened Generation
  import Gate

  /**
   * The `match` on the wrapper generator's outcome in `handle_entry_point`: on success the
   * wrapper and a separator go to the list of the entry point's kind (an L1 handler's
   * parameters being validated first); on failure the generator's diagnostics are kept.
   */
  method PushWrapper(kind: EntryPointKind, fn: FunctionWithBody, functionName: Node, gens: Collaborators,
                     diagnostics: seq<Diagnostic>, data: ContractGenerationData)
    returns (newDiagnostics: seq<Diagnostic>)
    modifies data
    ensures data.Lists() == old(data.Lists()).Then(WrapperLists(EntryPoint(kind, fn, functionName), gens))
    ensures newDiagnostics == diagnostics + WrapperDiagnostics(EntryPoint(kind, fn, functionName), gens)
  {
    match gens.wrapper(fn, functionName) {
      case Ok(generated) =>
        match kind {
          case Constructor =>
            data.generatedConstructorFunctions := data.generatedConstructorFunctions + [generated, SEPARATOR];
            newDiagnostics := diagnostics;
          case L1Handler =>
            newDiagnostics := ValidateL1HandlerFirstParameter(fn.declaration.params, diagnostics);
            data.generatedL1HandlerFunctions := data.generatedL1HandlerFunctions + [generated, SEPARATOR];
          case External =>
            data.generatedExternalFunctions := data.generatedExternalFunctions + [generated, SEPARATOR];
            newDiagnostics := diagnostics;
        }
      case Err(entryPointDiagnostics) =>
        ThenNoLists(data.Lists());
        newDiagnostics := diagnostics + entryPointDiagnostics;
    }
  }

  /**
   * `handle_entry_point`: rejects generic arguments, always appends one ABI row (the
   * declaration with its parameters' `mut` cleared), then appends the wrapper or the
   * generator's diagnostics.
   */
  method HandleEntryPoint(kind: EntryPointKind, fn: FunctionWithBody, functionName: Node, gens: Collaborators,
                          diagnostics: seq<Diagnostic>, data: ContractGenerationData)
    returns (newDiagnostics: seq<Diagnostic>)
    modifies data
    ensures data.Lists() == old(data.Lists()).Then(EntryPointLists(EntryPoint(kind, fn, functionName), gens))
    ensures newDiagnostics == diagnostics + EntryPointDiagnostics(EntryPoint(kind, fn, functionName), gens)
  {
    var attr := kind.Attr();
    var declaration := fn.declaration;
    newDiagnostics := diagnostics;
    if declaration.hasGenerics {
      newDiagnostics := newDiagnostics + [Diagnostic(GENERIC_ARGS_MESSAGE, GenericParamsPtr(declaration))];
    }
    var params := ClearMutModifiers(declaration.params);
    var declarationNode := Declaration(declaration.(params := params));
    data.abiFunctions := data.abiFunctions + [Modified([Text("#[" + attr + "]\n        "), declarationNode, Text(";\n        ")])];
    ghost var afterRow := data.Lists();
    newDiagnostics := PushWrapper(kind, fn, functionName, gens, newDiagnostics, data);
    EntryPointListsSplit(old(data.Lists()), afterRow, EntryPoint(kind, fn, functionName), gens);
  }

  /** One item of an `#[external]` impl body. */
  method HandleImplItem(implName: string, implItem: ImplItem, gens: Collaborators,
                        diagnostics: seq<Diagnostic>, data: ContractGenerationData)
    returns (newDiagnostics: seq<Diagnostic>)
    modifies data
    ensures data.Lists() == old(data.Lists()).Then(EntryPointsLists(ImplItemEntryPoints(implName, implItem), gens))
    ensures newDiagnostics == diagnostics + EntryPointsDiagnostics(ImplItemEntryPoints(implName, implItem), gens)
  {
    match implItem {
      case ImplFunction(f) =>
        var functionName := QualifiedName(implName, f.declaration.name);
        SingleEntryPoint(EntryPoint(External, f, functionName), gens);
        newDiagnostics := HandleEntryPoint(External, f, functionName, gens, diagnostics, data);
      case OtherImplItem =>
        ThenNoLists(data.Lists());
        newDiagnostics := diagnostics;
    }
  }

  /** The impl arm of the second pass: every function of an `#[external]` impl body, as `External`, named `Impl::func`. */
  method HandleExternalImpl(implName: string, implItems: seq<ImplItem>, gens: Collaborators,
                            diagnostics: seq<Diagnostic>, data: ContractGenerationData)
    returns (newDiagnostics: seq<Diagnostic>)
    modifies data
    ensures data.Lists() == old(data.Lists()).Then(EntryPointsLists(ImplEntryPoints(implName, implItems), gens))
    ensures newDiagnostics == diagnostics + EntryPointsDiagnostics(ImplEntryPoints(implName, implItems), gens)
  {
    newDiagnostics := diagnostics;
    assert implItems[..0] == [];
    ThenNoLists(data.Lists());
    for j := 0 to |implItems|
      invariant data.Lists() == old(data.Lists()).Then(EntryPointsLists(ImplEntryPoints(implName, implItems[..j]), gens))
      invariant newDiagnostics == diagnostics + EntryPointsDiagnostics(ImplEntryPoints(implName, implItems[..j]), gens)
    {
      newDiagnostics := HandleImplItem(implName, implItems[j], gens, newDiagnostics, data);
      ImplListsStep(old(data.Lists()), implName, implItems, j, gens);
      ImplDiagnosticsStep(diagnostics, implName, implItems, j, gens);
    }
    assert implItems[..|implItems|] == implItems;
  }

  /** The event arm: the event generator's two nodes, when it rewrites the function, and its diagnostics. */
  method HandleEventFunction(itemFunction: FunctionWithBody, gens: Collaborators,
                             diagnostics: seq<Diagnostic>, data: ContractGenerationData)
    returns (newDiagnostics: seq<Diagnostic>)
    modifies data
    ensures data.Lists() == old(data.Lists()).Then(EventLists(itemFunction, gens))
    ensures newDiagnostics == diagnostics + gens.event(itemFunction).diagnostics
  {
    var output := gens.event(itemFunction);
    if output.rewrite.Some? {
      data.eventFunctions := data.eventFunctions + [output.rewrite.value.0];
      data.abiEvents := data.abiEvents + [output.rewrite.value.1];
    } else {
      ThenNoLists(data.Lists());
    }
    newDiagnostics := diagnostics + output.diagnostics;
  }

  /** The free-function arm for a non-event function: an entry point when the classifier says so. */
  method HandleFreeEntryPoint(itemFunction: FunctionWithBody, gens: Collaborators,
                              diagnostics: seq<Diagnostic>, data: ContractGenerationData)
    returns (newDiagnostics: seq<Diagnostic>)
    modifies data
    ensures data.Lists() == old(data.Lists()).Then(EntryPointsLists(FreeEntryPoints(itemFunction, gens), gens))
    ensures newDiagnostics == diagnostics + EntryPointsDiagnostics(FreeEntryPoints(itemFunction, gens), gens)
  {
    var entryPointKind := gens.classify(itemFunction);
    if entryPointKind.Some? {
      var functionName := Name(itemFunction.declaration.name);
      SingleEntryPoint(EntryPoint(entryPointKind.value, itemFunction, functionName), gens);
      newDiagnostics := HandleEntryPoint(entryPointKind.value, itemFunction, functionName, gens, diagnostics, data);
    } else {
      ThenNoLists(data.Lists());
      newDiagnostics := diagnostics;
    }
  }

  /** The free-function arm of the second pass: an event function or a candidate entry point. */
  method DispatchFreeFunction(item: Item, gens: Collaborators, uses: Node, hasEvent: bool,
                              diagnostics: seq<Diagnostic>, data: ContractGenerationData)
    returns (newDiagnostics: seq<Diagnostic>)
    requires item.FreeFunction?
    modifies data
    ensures data.Lists() == old(data.Lists()).Then(ItemLists(item, gens))
    ensures newDiagnostics == diagnostics + ItemDiagnostics(item, gens, uses, hasEvent)
  {
    if HasAttr(item.fn.attrs, EVENT_ATTR) {
      newDiagnostics := HandleEventFunction(item.fn, gens, diagnostics, data);
    } else {
      newDiagnostics := HandleFreeEntryPoint(item.fn, gens, diagnostics, data);
    }
  }

  /** The impl arm of the second pass: only an `#[external]` impl with a body yields entry points. */
  method DispatchImpl(item: Item, gens: Collaborators, uses: Node, hasEvent: bool,
                      diagnostics: seq<Diagnostic>, data: ContractGenerationData)
    returns (newDiagnostics: seq<Diagnostic>)
    requires item.Impl?
    modifies data
    ensures data.Lists() == old(data.Lists()).Then(ItemLists(item, gens))
    ensures newDiagnostics == diagnostics + ItemDiagnostics(item, gens, uses, hasEvent)
  {
    if HasAttr(item.attrs, EXTERNAL_ATTR) && item.implBody.Some? {
      newDiagnostics := HandleExternalImpl(item.name, item.implBody.value, gens, diagnostics, data);
    } else {
      ThenNoLists(data.Lists());
      newDiagnostics := diagnostics;
    }
  }

  /** The struct arm of the second pass: the storage generator's code and diagnostics for the `Storage` struct. */
  method DispatchStruct(item: Item, gens: Collaborators, uses: Node, hasEvent: bool, storageCode: Node,
                        diagnostics: seq<Diagnostic>)
    returns (newStorageCode: Node, newDiagnostics: seq<Diagnostic>)
    requires item.Struct?
    ensures newDiagnostics == diagnostics + ItemDiagnostics(item, gens, uses, hasEvent)
    ensures newStorageCode == ItemStorageCode(item, gens, uses, hasEvent, storageCode)
  {
    if item.name == STORAGE_STRUCT_NAME {
      var storageOutput := gens.storage(item, uses, hasEvent);
      newStorageCode := storageOutput.0;
      newDiagnostics := diagnostics + storageOutput.1;
    } else {
      newStorageCode, newDiagnostics := storageCode, diagnostics;
    }
  }

  /** The second pass's `match` on one item. */
  method DispatchItem(item: Item, gens: Collaborators, uses: Node, hasEvent: bool, storageCode: Node,
                      diagnostics: seq<Diagnostic>, data: ContractGenerationData)
    returns (newStorageCode: Node, newDiagnostics: seq<Diagnostic>)
    modifies data
    ensures data.Lists() == old(data.Lists()).Then(ItemLists(item, gens))
    ensures newDiagnostics == diagnostics + ItemDiagnostics(item, gens, uses, hasEvent)
    ensures newStorageCode == ItemStorageCode(item, gens, uses, hasEvent, storageCode)
  {
    newStorageCode := storageCode;
    if !item.Struct? {
      assert ItemStorageCode(item, gens, uses, hasEvent, storageCode) == storageCode;
    }
    match item {
      case FreeFunction(_) =>
        newDiagnostics := DispatchFreeFunction(item, gens, uses, hasEvent, diagnostics, data);
      case Impl(_, _, _) =>
        newDiagnostics := DispatchImpl(item, gens, uses, hasEvent, diagnostics, data);
      case Struct(_, _) =>
        ThenNoLists(data.Lists());
        newStorageCode, newDiagnostics := DispatchStruct(item, gens, uses, hasEvent, storageCode, diagnostics);
      case _ =>
        ThenNoLists(data.Lists());
        newDiagnostics := diagnostics;
    }
  }

  /** The second loop of `handle_contract_by_storage`, over the items in source order. */
  method DispatchItems(items: seq<Item>, gens: Collaborators, uses: Node, hasEvent: bool, data: ContractGenerationData)
    returns (storageCode: Node, diagnostics: seq<Diagnostic>)
    modifies data
    ensures data.Lists() == old(data.Lists()).Then(ItemsLists(items, gens))
    ensures diagnostics == ContractDiagnostics(items, gens, uses, hasEvent)
    ensures storageCode == StorageCode(items, gens, uses, hasEvent)
  {
    storageCode, diagnostics := Text(""), [];
    assert items[..0] == [];
    ThenNoLists(data.Lists());
    for i := 0 to |items|
      invariant data.Lists() == old(data.Lists()).Then(ItemsLists(items[..i], gens))
      invariant diagnostics == ContractDiagnostics(items[..i], gens, uses, hasEvent)
      invariant storageCode == StorageCode(items[..i], gens, uses, hasEvent)
    {
      storageCode, diagnostics := DispatchItem(items[i], gens, uses, hasEvent, storageCode, diagnostics, data);
      ListsStep(old(data.Lists()), items, i, gens);
      DiagnosticsStep(items, i, gens, uses, hasEvent);
      StorageStep(items, i, gens, uses, hasEvent);
    }
    assert items[..|items|] == items;
  }

  /**
   * `handle_contract_by_storage`, with the enclosing module given directly: nothing for a
   * module without `#[contract]`; one diagnostic for a contract without body; otherwise the
   * full expansion, which asks the host to remove the original module.
   */
  method HandleContractByStorage(m: ModuleAst, gens: Collaborators) returns (r: Option<PluginResult>)
    requires m.body.Some? ==> NoImplAlias(m.body.value)
    ensures !HasAttr(m.attrs, CONTRACT_ATTR) ==> r == None
    ensures HasAttr(m.attrs, CONTRACT_ATTR) && m.body.None?
            ==> r == Some(PluginResult(None, [Diagnostic(Gate.NO_BODY_MESSAGE, EmptyBodyPtr(m.name))], false))
    ensures HasAttr(m.attrs, CONTRACT_ATTR) && m.body.Some? ==> r == Some(ExpectedExpansion(m, m.body.value, gens))
  {
    if !HasAttr(m.attrs, CONTRACT_ATTR) {
      return None;
    }
    var body;
    match m.body {
      case Some(items) => body := items;
      case None =>
        return Some(PluginResult(None, [Diagnostic(Gate.NO_BODY_MESSAGE, EmptyBodyPtr(m.name))], false));
    }
    var extraUses, hasEvent, keptOriginalItems := ScanItems(body);
    AnyDeclaresEventIsHasEvent(body);
    var extraUsesNode := UsesNode(extraUses);
    var data := new ContractGenerationData();
    var storageCode, diagnostics := DispatchItems(body, gens, extraUsesNode, hasEvent, data);
    ThenNoLists(ItemsLists(body, gens));
    var testClassHash := gens.keccak(m.text);
    var code := ContractCode(
      testClassHash, storageCode, data.eventFunctions, data.abiFunctions, data.abiEvents, extraUsesNode,
      data.generatedExternalFunctions, data.generatedL1HandlerFunctions, data.generatedConstructorFunctions);
    return Some(PluginResult(Some(GeneratedFile("contract", code, [m.name])), diagnostics, true));
  }
}
