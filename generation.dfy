/**
 * What the second pass of the contract expansion produces, as values: the six lists of
 * `ContractGenerationData`, the entry points each item yields, and the lists, diagnostics
 * and storage code the pass accumulates over the items in source order. The methods of
 * module Contract are proved against these definitions.
 */
module Generation {
  import opened Wrappers
  import opened Syntax
  import opened UseSet
  import opened EntryPoints

  /** The six lists of the generation record, as one value. */
  datatype GenerationLists = GenerationLists(
    generatedExternalFunctions: seq<Node>,
    generatedConstructorFunctions: seq<Node>,
    generatedL1HandlerFunctions: seq<Node>,
    abiFunctions: seq<Node>,
    eventFunctions: seq<Node>,
    abiEvents: seq<Node>)
  {
    /** These lists, each followed by the corresponding list of `more`. */
    function Then(more: GenerationLists): GenerationLists {
      GenerationLists(
        generatedExternalFunctions + more.generatedExternalFunctions,
        generatedConstructorFunctions + more.generatedConstructorFunctions,
        generatedL1HandlerFunctions + more.generatedL1HandlerFunctions,
        abiFunctions + more.abiFunctions,
        eventFunctions + more.eventFunctions,
        abiEvents + more.abiEvents)
    }

    /** The list the wrappers of kind `kind` go to. */
    function Generated(kind: EntryPointKind): seq<Node> {
      match kind
      case External => generatedExternalFunctions
      case Constructor => generatedConstructorFunctions
      case L1Handler => generatedL1HandlerFunctions
    }
  }

  const NO_LISTS := GenerationLists([], [], [], [], [], [])

  /** Appending lists in sequence does not depend on grouping. */
  lemma ThenAssociative(a: GenerationLists, b: GenerationLists, c: GenerationLists)
    ensures a.Then(b).Then(c) == a.Then(b.Then(c))
  {
  }

  /** The empty lists are neutral on both sides. */
  lemma ThenNoLists(a: GenerationLists)
    ensures a.Then(NO_LISTS) == a && NO_LISTS.Then(a) == a
  {
  }

  /** `ContractGenerationData`: the six append-only lists filled during the second pass. */
  class ContractGenerationData {
    var generatedExternalFunctions: seq<Node>
    var generatedConstructorFunctions: seq<Node>
    var generatedL1HandlerFunctions: seq<Node>
    var abiFunctions: seq<Node>
    var eventFunctions: seq<Node>
    var abiEvents: seq<Node>

    function Lists(): GenerationLists
      reads this
    {
      GenerationLists(generatedExternalFunctions, generatedConstructorFunctions, generatedL1HandlerFunctions,
                      abiFunctions, eventFunctions, abiEvents)
    }

    constructor ()
      ensures Lists() == NO_LISTS
    {
      generatedExternalFunctions, generatedConstructorFunctions := [], [];
      generatedL1HandlerFunctions, abiFunctions := [], [];
      eventFunctions, abiEvents := [], [];
    }
  }

  /** The name `$impl_name$::$func_name$` a function of an `#[external]` impl is dispatched under. */
  function QualifiedName(implName: string, functionName: string): Node {
    Modified([Name(implName), Text("::"), Name(functionName)])
  }

  /** The entry point an impl item yields: a function, as `External`, named `Impl::func`. */
  function ImplItemEntryPoints(implName: string, implItem: ImplItem): seq<EntryPoint> {
    match implItem
    case ImplFunction(f) => [EntryPoint(External, f, QualifiedName(implName, f.declaration.name))]
    case OtherImplItem => []
  }

  /** The entry points of an `#[external]` impl body, in source order. */
  function ImplEntryPoints(implName: string, implItems: seq<ImplItem>): seq<EntryPoint> {
    if implItems == [] then []
    else ImplEntryPoints(implName, implItems[..|implItems| - 1]) + ImplItemEntryPoints(implName, implItems[|implItems| - 1])
  }

  /** The entry point a free function yields: one of the kind the classifier gives it, if any. */
  function FreeEntryPoints(f: FunctionWithBody, gens: Collaborators): seq<EntryPoint> {
    match gens.classify(f)
    case None => []
    case Some(kind) => [EntryPoint(kind, f, Name(f.declaration.name))]
  }

  /** The entry points an item yields, in source order. */
  function ItemEntryPoints(item: Item, gens: Collaborators): seq<EntryPoint> {
    match item
    case FreeFunction(f) => if HasAttr(f.attrs, EVENT_ATTR) then [] else FreeEntryPoints(f, gens)
    case Impl(name, attrs, implBody) =>
      if HasAttr(attrs, EXTERNAL_ATTR) && implBody.Some? then ImplEntryPoints(name, implBody.value) else []
    case _ => []
  }

  /** Every entry point of a contract body, in source order. */
  function EntryPointsOf(items: seq<Item>, gens: Collaborators): seq<EntryPoint> {
    if items == [] then []
    else EntryPointsOf(items[..|items| - 1], gens) + ItemEntryPoints(items[|items| - 1], gens)
  }

  /** What `handle_entry_point` appends for one entry point. */
  function EntryPointLists(ep: EntryPoint, gens: Collaborators): GenerationLists {
    GenerationLists(WrapperNodes(ep, External, gens), WrapperNodes(ep, Constructor, gens),
                    WrapperNodes(ep, L1Handler, gens), [AbiRow(ep)], [], [])
  }

  /** What the wrapper generator's outcome appends: the wrapper and a separator, to the list of the entry point's kind. */
  function WrapperLists(ep: EntryPoint, gens: Collaborators): GenerationLists {
    GenerationLists(WrapperNodes(ep, External, gens), WrapperNodes(ep, Constructor, gens),
                    WrapperNodes(ep, L1Handler, gens), [], [], [])
  }

  /** Appending the ABI row and then the wrapper lists appends the entry point's lists. */
  lemma EntryPointListsSplit(start: GenerationLists, afterRow: GenerationLists, ep: EntryPoint, gens: Collaborators)
    requires afterRow == start.(abiFunctions := start.abiFunctions + [AbiRow(ep)])
    ensures afterRow.Then(WrapperLists(ep, gens)) == start.Then(EntryPointLists(ep, gens))
  {
  }

  /** What `handle_entry_point` appends for a run of entry points, in order. */
  function EntryPointsLists(eps: seq<EntryPoint>, gens: Collaborators): GenerationLists {
    if eps == [] then NO_LISTS
    else EntryPointsLists(eps[..|eps| - 1], gens).Then(EntryPointLists(eps[|eps| - 1], gens))
  }

  /** What the event arm appends: the event generator's two nodes, when it rewrites the function. */
  function EventLists(f: FunctionWithBody, gens: Collaborators): GenerationLists {
    match gens.event(f).rewrite
    case Some(nodes) => GenerationLists([], [], [], [], [nodes.0], [nodes.1])
    case None => NO_LISTS
  }

  /** What the second pass appends for one item: an event's two nodes, or its entry points' rows and wrappers. */
  function ItemLists(item: Item, gens: Collaborators): GenerationLists {
    match item
    case FreeFunction(f) =>
      if HasAttr(f.attrs, EVENT_ATTR) then EventLists(f, gens) else EntryPointsLists(FreeEntryPoints(f, gens), gens)
    case Impl(name, attrs, implBody) =>
      if HasAttr(attrs, EXTERNAL_ATTR) && implBody.Some? then EntryPointsLists(ImplEntryPoints(name, implBody.value), gens)
      else NO_LISTS
    case _ => NO_LISTS
  }

  /** What the second pass appends for a run of items, in source order. */
  function ItemsLists(items: seq<Item>, gens: Collaborators): GenerationLists {
    if items == [] then NO_LISTS
    else ItemsLists(items[..|items| - 1], gens).Then(ItemLists(items[|items| - 1], gens))
  }

  /** Every diagnostic a run of entry points raises, in order. */
  function EntryPointsDiagnostics(eps: seq<EntryPoint>, gens: Collaborators): seq<Diagnostic> {
    if eps == [] then []
    else EntryPointsDiagnostics(eps[..|eps| - 1], gens) + EntryPointDiagnostics(eps[|eps| - 1], gens)
  }

  /** The lists of consecutive entry points are those of each part, in order. */
  lemma {:induction false} EntryPointsListsAppend(a: seq<EntryPoint>, b: seq<EntryPoint>, gens: Collaborators)
    ensures EntryPointsLists(a + b, gens) == EntryPointsLists(a, gens).Then(EntryPointsLists(b, gens))
  {
    if b == [] {
      assert a + b == a;
      ThenNoLists(EntryPointsLists(a, gens));
    } else {
      var b0, last := b[..|b| - 1], b[|b| - 1];
      assert (a + b)[..|a + b| - 1] == a + b0;
      EntryPointsListsAppend(a, b0, gens);
      ThenAssociative(EntryPointsLists(a, gens), EntryPointsLists(b0, gens), EntryPointLists(last, gens));
    }
  }

  /** The diagnostics of consecutive entry points are those of each part, in order. */
  lemma {:induction false} EntryPointsDiagnosticsAppend(a: seq<EntryPoint>, b: seq<EntryPoint>, gens: Collaborators)
    ensures EntryPointsDiagnostics(a + b, gens) == EntryPointsDiagnostics(a, gens) + EntryPointsDiagnostics(b, gens)
  {
    if b == [] {
      assert a + b == a;
    } else {
      var b0 := b[..|b| - 1];
      assert (a + b)[..|a + b| - 1] == a + b0;
      EntryPointsDiagnosticsAppend(a, b0, gens);
    }
  }

  /** The lists and diagnostics of a single entry point. */
  lemma SingleEntryPoint(ep: EntryPoint, gens: Collaborators)
    ensures EntryPointsLists([ep], gens) == EntryPointLists(ep, gens)
    ensures EntryPointsDiagnostics([ep], gens) == EntryPointDiagnostics(ep, gens)
  {
    assert [ep][..0] == [];
    ThenNoLists(EntryPointLists(ep, gens));
  }

  /** How the lists of an impl body's entry points grow by one impl item, after lists `start`. */
  lemma ImplListsStep(start: GenerationLists, implName: string, implItems: seq<ImplItem>, j: nat, gens: Collaborators)
    requires j < |implItems|
    ensures start.Then(EntryPointsLists(ImplEntryPoints(implName, implItems[..j]), gens))
                 .Then(EntryPointsLists(ImplItemEntryPoints(implName, implItems[j]), gens))
            == start.Then(EntryPointsLists(ImplEntryPoints(implName, implItems[..j + 1]), gens))
  {
    assert implItems[..j + 1][..j] == implItems[..j];
    EntryPointsListsAppend(ImplEntryPoints(implName, implItems[..j]), ImplItemEntryPoints(implName, implItems[j]), gens);
    ThenAssociative(start, EntryPointsLists(ImplEntryPoints(implName, implItems[..j]), gens),
                    EntryPointsLists(ImplItemEntryPoints(implName, implItems[j]), gens));
  }

  /** How the diagnostics of an impl body's entry points grow by one impl item, after diagnostics `start`. */
  lemma ImplDiagnosticsStep(start: seq<Diagnostic>, implName: string, implItems: seq<ImplItem>, j: nat, gens: Collaborators)
    requires j < |implItems|
    ensures start + EntryPointsDiagnostics(ImplEntryPoints(implName, implItems[..j]), gens)
                  + EntryPointsDiagnostics(ImplItemEntryPoints(implName, implItems[j]), gens)
            == start + EntryPointsDiagnostics(ImplEntryPoints(implName, implItems[..j + 1]), gens)
  {
    assert implItems[..j + 1][..j] == implItems[..j];
    EntryPointsDiagnosticsAppend(ImplEntryPoints(implName, implItems[..j]), ImplItemEntryPoints(implName, implItems[j]), gens);
  }

  /** The diagnostics the second pass raises for one item. */
  function ItemDiagnostics(item: Item, gens: Collaborators, uses: Node, hasEvent: bool): seq<Diagnostic> {
    match item
    case FreeFunction(f) =>
      if HasAttr(f.attrs, EVENT_ATTR) then gens.event(f).diagnostics
      else EntryPointsDiagnostics(FreeEntryPoints(f, gens), gens)
    case Impl(name, attrs, implBody) =>
      if HasAttr(attrs, EXTERNAL_ATTR) && implBody.Some? then EntryPointsDiagnostics(ImplEntryPoints(name, implBody.value), gens)
      else []
    case Struct(name, _) => if name == STORAGE_STRUCT_NAME then gens.storage(item, uses, hasEvent).1 else []
    case _ => []
  }

  /** Every diagnostic the second pass raises for a run of items, in source order. */
  function ContractDiagnostics(items: seq<Item>, gens: Collaborators, uses: Node, hasEvent: bool): seq<Diagnostic> {
    if items == [] then []
    else ContractDiagnostics(items[..|items| - 1], gens, uses, hasEvent) + ItemDiagnostics(items[|items| - 1], gens, uses, hasEvent)
  }

  /** The storage code after one item: the storage generator's code for a `Storage` struct, else `current`. */
  function ItemStorageCode(item: Item, gens: Collaborators, uses: Node, hasEvent: bool, current: Node): Node {
    match item
    case Struct(name, _) => if name == STORAGE_STRUCT_NAME then gens.storage(item, uses, hasEvent).0 else current
    case _ => current
  }

  /** The storage code: that of the last `Storage` struct, each one replacing the previous; empty text if none. */
  function StorageCode(items: seq<Item>, gens: Collaborators, uses: Node, hasEvent: bool): Node {
    if items == [] then Text("")
    else ItemStorageCode(items[|items| - 1], gens, uses, hasEvent, StorageCode(items[..|items| - 1], gens, uses, hasEvent))
  }

  /** The whole expansion of a contract module with a body. */
  function ExpectedExpansion(m: ModuleAst, items: seq<Item>, gens: Collaborators): PluginResult {
    var uses := UsesNode(ExtraUses(items));
    var hasEvent := AnyDeclaresEvent(items);
    var lists := ItemsLists(items, gens);
    var code := ContractCode(
      gens.keccak(m.text),
      StorageCode(items, gens, uses, hasEvent),
      lists.eventFunctions,
      lists.abiFunctions,
      lists.abiEvents,
      uses,
      lists.generatedExternalFunctions,
      lists.generatedL1HandlerFunctions,
      lists.generatedConstructorFunctions);
    PluginResult(Some(GeneratedFile("contract", code, [m.name])), ContractDiagnostics(items, gens, uses, hasEvent), true)
  }

  /** How the lists of the second pass grow by one item, after lists `start`. */
  lemma ListsStep(start: GenerationLists, items: seq<Item>, i: nat, gens: Collaborators)
    requires i < |items|
    ensures start.Then(ItemsLists(items[..i], gens)).Then(ItemLists(items[i], gens))
            == start.Then(ItemsLists(items[..i + 1], gens))
  {
    assert items[..i + 1][..i] == items[..i];
    ThenAssociative(start, ItemsLists(items[..i], gens), ItemLists(items[i], gens));
  }

  /** How the diagnostics of the second pass grow by one item. */
  lemma DiagnosticsStep(items: seq<Item>, i: nat, gens: Collaborators, uses: Node, hasEvent: bool)
    requires i < |items|
    ensures ContractDiagnostics(items[..i], gens, uses, hasEvent) + ItemDiagnostics(items[i], gens, uses, hasEvent)
            == ContractDiagnostics(items[..i + 1], gens, uses, hasEvent)
  {
    assert items[..i + 1][..i] == items[..i];
  }

  /** How the storage code of the second pass changes with one item. */
  lemma StorageStep(items: seq<Item>, i: nat, gens: Collaborators, uses: Node, hasEvent: bool)
    requires i < |items|
    ensures StorageCode(items[..i + 1], gens, uses, hasEvent)
            == ItemStorageCode(items[i], gens, uses, hasEvent, StorageCode(items[..i], gens, uses, hasEvent))
  {
    assert items[..i + 1][..i] == items[..i];
  }
}
