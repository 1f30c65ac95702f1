/**
 * Properties of the second pass of the contract expansion as a whole, stated over the
 * reference definitions of module Generation: the ABI trait lists one row per entry point
 * in source order, each wrapper list alternates wrappers and separators, the functions of
 * an `#[external]` impl are all external entry points, event lowerings keep their order,
 * the code of the last `Storage` struct is the one kept, and diagnostics come out in
 * source order.
 */
module ContractProperties {
  import opened Wrappers
  import opened Syntax
  import opened UseSet
  import opened EntryPoints
  import opened Generation
  import Gate

  // ----- Entry points in source order -----

  /** The entry points of consecutive runs of items are those of each run, in order. */
  lemma {:induction false} EntryPointsOfAppend(a: seq<Item>, b: seq<Item>, gens: Collaborators)
    ensures EntryPointsOf(a + b, gens) == EntryPointsOf(a, gens) + EntryPointsOf(b, gens)
  {
    if b == [] {
      assert a + b == a;
    } else {
      var b0 := b[..|b| - 1];
      assert (a + b)[..|a + b| - 1] == a + b0;
      EntryPointsOfAppend(a, b0, gens);
    }
  }

  /** The lists without the two event lists: what entry points contribute. */
  function EntryPointPart(lists: GenerationLists): GenerationLists {
    lists.(eventFunctions := [], abiEvents := [])
  }

  lemma EntryPointPartThen(a: GenerationLists, b: GenerationLists)
    ensures EntryPointPart(a.Then(b)) == EntryPointPart(a).Then(EntryPointPart(b))
  {
  }

  /** Entry points never add to the event lists. */
  lemma {:induction false} EntryPointsListsHaveNoEvents(eps: seq<EntryPoint>, gens: Collaborators)
    ensures EntryPointsLists(eps, gens).eventFunctions == []
    ensures EntryPointsLists(eps, gens).abiEvents == []
  {
    if eps != [] {
      EntryPointsListsHaveNoEvents(eps[..|eps| - 1], gens);
    }
  }

  /** What one item adds outside the event lists is exactly what its entry points add. */
  lemma ItemListsEntryPointPart(item: Item, gens: Collaborators)
    ensures EntryPointPart(ItemLists(item, gens)) == EntryPointsLists(ItemEntryPoints(item, gens), gens)
  {
    match item
    case FreeFunction(f) =>
      if !HasAttr(f.attrs, EVENT_ATTR) {
        EntryPointsListsHaveNoEvents(FreeEntryPoints(f, gens), gens);
      }
    case Impl(name, attrs, implBody) =>
      if HasAttr(attrs, EXTERNAL_ATTR) && implBody.Some? {
        EntryPointsListsHaveNoEvents(ImplEntryPoints(name, implBody.value), gens);
      }
    case _ =>
  }

  /**
   * Outside the event lists, the second pass over a contract body appends exactly what
   * `handle_entry_point` appends for the body's entry points taken in source order:
   * event functions, the storage struct and other items do not disturb the order.
   */
  lemma {:induction false} ItemsListsAreEntryPointsLists(items: seq<Item>, gens: Collaborators)
    ensures EntryPointPart(ItemsLists(items, gens)) == EntryPointsLists(EntryPointsOf(items, gens), gens)
  {
    if items != [] {
      var init, last := items[..|items| - 1], items[|items| - 1];
      ItemsListsAreEntryPointsLists(init, gens);
      EntryPointPartThen(ItemsLists(init, gens), ItemLists(last, gens));
      ItemListsEntryPointPart(last, gens);
      EntryPointsListsAppend(EntryPointsOf(init, gens), ItemEntryPoints(last, gens), gens);
    }
  }

  // ----- One entry point -----

  /**
   * One entry point always appends its ABI row; a generated wrapper and a separator go to
   * the list of its own kind only, and a failed generation leaves every wrapper list as it
   * was; the event lists never change. None of this depends on generic parameters.
   */
  lemma EntryPointListsCases(ep: EntryPoint, gens: Collaborators)
    ensures EntryPointLists(ep, gens).abiFunctions == [AbiRow(ep)]
    ensures EntryPointLists(ep, gens).eventFunctions == [] && EntryPointLists(ep, gens).abiEvents == []
    ensures forall kind: EntryPointKind :: kind != ep.kind ==> EntryPointLists(ep, gens).Generated(kind) == []
    ensures var outcome := gens.wrapper(ep.fn, ep.functionName);
            outcome.Ok? ==> EntryPointLists(ep, gens).Generated(ep.kind) == [outcome.value, SEPARATOR]
    ensures gens.wrapper(ep.fn, ep.functionName).Err? ==> EntryPointLists(ep, gens).Generated(ep.kind) == []
  {
  }

  /**
   * Items other than free functions, `#[external]` impls with a body and the `Storage`
   * struct take no part in the second pass: no entry point, no list entry, no diagnostic,
   * and the storage code is left as it was.
   */
  lemma SilentItems(item: Item, gens: Collaborators, uses: Node, hasEvent: bool, current: Node)
    requires !item.FreeFunction? && !Gate.IsStorageStruct(item)
    requires item.Impl? ==> !HasAttr(item.attrs, EXTERNAL_ATTR) || item.implBody.None?
    ensures ItemEntryPoints(item, gens) == []
    ensures ItemLists(item, gens) == NO_LISTS
    ensures ItemDiagnostics(item, gens, uses, hasEvent) == []
    ensures ItemStorageCode(item, gens, uses, hasEvent, current) == current
  {
  }

  // ----- The ABI trait -----

  /** One ABI row per entry point, in order, whether or not its wrapper could be generated. */
  lemma {:induction false} AbiRowsInOrder(eps: seq<EntryPoint>, gens: Collaborators)
    ensures |EntryPointsLists(eps, gens).abiFunctions| == |eps|
    ensures forall i :: 0 <= i < |eps| ==> EntryPointsLists(eps, gens).abiFunctions[i] == AbiRow(eps[i])
  {
    if eps != [] {
      AbiRowsInOrder(eps[..|eps| - 1], gens);
    }
  }

  /**
   * The ABI trait of a contract has exactly one row per entry point of its body, in
   * source order, and no row keeps a `mut` parameter modifier.
   */
  lemma ContractAbiRows(items: seq<Item>, gens: Collaborators)
    ensures var rows := ItemsLists(items, gens).abiFunctions;
            var eps := EntryPointsOf(items, gens);
            && |rows| == |eps|
            && (forall i :: 0 <= i < |rows| ==> rows[i] == AbiRow(eps[i]))
            && (forall i :: 0 <= i < |rows| ==> MutFreeRow(rows[i]))
  {
    var eps := EntryPointsOf(items, gens);
    ItemsListsAreEntryPointsLists(items, gens);
    AbiRowsInOrder(eps, gens);
    forall i | 0 <= i < |eps|
      ensures MutFreeRow(AbiRow(eps[i]))
    {
      AbiRowIsMutFree(eps[i]);
    }
  }

  // ----- The wrapper lists -----

  /** The wrapper the generator produced for an entry point of kind `kind`; none for another kind or a failure. */
  function KindWrapper(ep: EntryPoint, kind: EntryPointKind, gens: Collaborators): seq<Node> {
    var outcome := gens.wrapper(ep.fn, ep.functionName);
    if ep.kind == kind && outcome.Ok? then [outcome.value] else []
  }

  /** The generated wrappers of the entry points of kind `kind`, in order. */
  function KindWrappers(eps: seq<EntryPoint>, kind: EntryPointKind, gens: Collaborators): seq<Node> {
    if eps == [] then []
    else KindWrappers(eps[..|eps| - 1], kind, gens) + KindWrapper(eps[|eps| - 1], kind, gens)
  }

  lemma GeneratedThen(a: GenerationLists, b: GenerationLists, kind: EntryPointKind)
    ensures a.Then(b).Generated(kind) == a.Generated(kind) + b.Generated(kind)
  {
  }

  /** A list with `ws[i]` at every even position `2 * i`, followed by a separator. */
  predicate Interleaved(list: seq<Node>, ws: seq<Node>) {
    && |list| == 2 * |ws|
    && forall i :: 0 <= i < |ws| ==> list[2 * i] == ws[i] && list[2 * i + 1] == SEPARATOR
  }

  lemma InterleavedAppend(list: seq<Node>, ws: seq<Node>, w: Node)
    requires Interleaved(list, ws)
    ensures Interleaved(list + [w, SEPARATOR], ws + [w])
  {
    var list', ws' := list + [w, SEPARATOR], ws + [w];
    forall i | 0 <= i < |ws'|
      ensures list'[2 * i] == ws'[i] && list'[2 * i + 1] == SEPARATOR
    {
      if i < |ws| {
        assert list'[2 * i] == list[2 * i];
        assert list'[2 * i + 1] == list[2 * i + 1];
      }
    }
  }

  /**
   * The wrapper list of kind `kind` holds, for every entry point of that kind whose wrapper
   * was generated, the wrapper followed by a separator, in order; nothing else.
   */
  lemma {:induction false} WrapperListInterleaves(eps: seq<EntryPoint>, kind: EntryPointKind, gens: Collaborators)
    ensures Interleaved(EntryPointsLists(eps, gens).Generated(kind), KindWrappers(eps, kind, gens))
  {
    if eps != [] {
      var init, ep := eps[..|eps| - 1], eps[|eps| - 1];
      WrapperListInterleaves(init, kind, gens);
      GeneratedThen(EntryPointsLists(init, gens), EntryPointLists(ep, gens), kind);
      var before := EntryPointsLists(init, gens).Generated(kind);
      if KindWrapper(ep, kind, gens) != [] {
        assert EntryPointLists(ep, gens).Generated(kind) == [KindWrapper(ep, kind, gens)[0], SEPARATOR];
        InterleavedAppend(before, KindWrappers(init, kind, gens), KindWrapper(ep, kind, gens)[0]);
      } else {
        assert EntryPointLists(ep, gens).Generated(kind) == [];
        assert before + [] == before;
      }
    }
  }

  /** The contract's wrapper list of each kind interleaves the generated wrappers of its entry points of that kind. */
  lemma ContractWrapperLists(items: seq<Item>, kind: EntryPointKind, gens: Collaborators)
    ensures Interleaved(ItemsLists(items, gens).Generated(kind), KindWrappers(EntryPointsOf(items, gens), kind, gens))
  {
    ItemsListsAreEntryPointsLists(items, gens);
    assert EntryPointPart(ItemsLists(items, gens)).Generated(kind) == ItemsLists(items, gens).Generated(kind);
    WrapperListInterleaves(EntryPointsOf(items, gens), kind, gens);
  }

  // ----- `#[external]` impls -----

  function ImplItemFunctions(implItem: ImplItem): seq<FunctionWithBody> {
    match implItem
    case ImplFunction(f) => [f]
    case OtherImplItem => []
  }

  /** The functions of an impl body, in source order. */
  function ImplFunctions(implItems: seq<ImplItem>): seq<FunctionWithBody> {
    if implItems == [] then []
    else ImplFunctions(implItems[..|implItems| - 1]) + ImplItemFunctions(implItems[|implItems| - 1])
  }

  /**
   * Every function of an `#[external]` impl is an external entry point, whatever its own
   * attributes, dispatched as `Impl::func`; one per function, in source order.
   */
  lemma {:induction false} ImplEntryPointsAreExternal(implName: string, implItems: seq<ImplItem>)
    ensures var eps := ImplEntryPoints(implName, implItems);
            var fs := ImplFunctions(implItems);
            && |eps| == |fs|
            && forall i :: 0 <= i < |fs| ==>
                 eps[i] == EntryPoint(External, fs[i], QualifiedName(implName, fs[i].declaration.name))
  {
    if implItems != [] {
      ImplEntryPointsAreExternal(implName, implItems[..|implItems| - 1]);
    }
  }

  // ----- Events -----

  /** The event generator's rewrite of an `#[event]` function, if it rewrote it. */
  function ItemEventRewrite(item: Item, gens: Collaborators): seq<(Node, Node)> {
    if IsEventFunction(item) && gens.event(item.fn).rewrite.Some? then [gens.event(item.fn).rewrite.value] else []
  }

  /** The rewrites of the body's `#[event]` functions, in source order. */
  function EventRewrites(items: seq<Item>, gens: Collaborators): seq<(Node, Node)> {
    if items == [] then []
    else EventRewrites(items[..|items| - 1], gens) + ItemEventRewrite(items[|items| - 1], gens)
  }

  lemma ItemListsEvents(item: Item, gens: Collaborators)
    ensures var rs := ItemEventRewrite(item, gens);
            && ItemLists(item, gens).eventFunctions == (if rs == [] then [] else [rs[0].0])
            && ItemLists(item, gens).abiEvents == (if rs == [] then [] else [rs[0].1])
  {
    match item
    case FreeFunction(f) =>
      if !HasAttr(f.attrs, EVENT_ATTR) {
        EntryPointsListsHaveNoEvents(FreeEntryPoints(f, gens), gens);
      }
    case Impl(name, attrs, implBody) =>
      if HasAttr(attrs, EXTERNAL_ATTR) && implBody.Some? {
        EntryPointsListsHaveNoEvents(ImplEntryPoints(name, implBody.value), gens);
      }
    case _ =>
  }

  /**
   * The contract's event lists hold, position by position, the two halves of each rewrite
   * the event generator made of an `#[event]` function, in source order; events it did not
   * rewrite add nothing.
   */
  lemma {:induction false} EventListsOfItems(items: seq<Item>, gens: Collaborators)
    ensures var lists := ItemsLists(items, gens);
            var rs := EventRewrites(items, gens);
            && |lists.eventFunctions| == |rs|
            && |lists.abiEvents| == |rs|
            && forall i :: 0 <= i < |rs| ==> lists.eventFunctions[i] == rs[i].0 && lists.abiEvents[i] == rs[i].1
  {
    if items != [] {
      var init, last := items[..|items| - 1], items[|items| - 1];
      EventListsOfItems(init, gens);
      ItemListsEvents(last, gens);
    }
  }

  // ----- Storage -----

  /** No struct named `Storage` at position `j` or later. */
  predicate NoStorageFrom(items: seq<Item>, j: nat) {
    forall k :: j <= k < |items| ==> !Gate.IsStorageStruct(items[k])
  }

  /** The storage code is empty text when the body has no struct named `Storage`. */
  lemma {:induction false} StorageCodeWithoutStorage(items: seq<Item>, gens: Collaborators, uses: Node, hasEvent: bool)
    requires NoStorageFrom(items, 0)
    ensures StorageCode(items, gens, uses, hasEvent) == Text("")
  {
    if items != [] {
      var init := items[..|items| - 1];
      assert NoStorageFrom(init, 0) by {
        forall k | 0 <= k < |init| ensures !Gate.IsStorageStruct(init[k]) {
          assert init[k] == items[k];
        }
      }
      StorageCodeWithoutStorage(init, gens, uses, hasEvent);
    }
  }

  /**
   * The storage code is the storage generator's expansion of the last struct named
   * `Storage`: each such struct replaces the code of the previous one.
   */
  lemma {:induction false} StorageCodeIsLastStorage(items: seq<Item>, j: nat, gens: Collaborators, uses: Node, hasEvent: bool)
    requires j < |items| && Gate.IsStorageStruct(items[j]) && NoStorageFrom(items, j + 1)
    ensures StorageCode(items, gens, uses, hasEvent) == gens.storage(items[j], uses, hasEvent).0
  {
    var init, last := items[..|items| - 1], items[|items| - 1];
    if j < |items| - 1 {
      assert !Gate.IsStorageStruct(last);
      assert init[j] == items[j];
      assert NoStorageFrom(init, j + 1) by {
        forall k | j + 1 <= k < |init| ensures !Gate.IsStorageStruct(init[k]) {
          assert init[k] == items[k];
        }
      }
      StorageCodeIsLastStorage(init, j, gens, uses, hasEvent);
    }
  }

  /** The position of the last struct named `Storage`, if any. */
  function LastStorage(items: seq<Item>): (r: Option<nat>)
    ensures r.Some? ==> r.value < |items| && Gate.IsStorageStruct(items[r.value]) && NoStorageFrom(items, r.value + 1)
    ensures r.None? ==> NoStorageFrom(items, 0)
  {
    if items == [] then None
    else if Gate.IsStorageStruct(items[|items| - 1]) then Some(|items| - 1)
    else
      var init := items[..|items| - 1];
      assert forall k :: 0 <= k < |init| ==> init[k] == items[k];
      LastStorage(init)
  }

  /**
   * The storage code of a body is that of its last `Storage` struct, or empty text; a body
   * the gate accepts has one, so its storage code is always the generator's.
   */
  lemma StorageCodeOfLastStorage(items: seq<Item>, gens: Collaborators, uses: Node, hasEvent: bool)
    ensures LastStorage(items).Some? <==> Gate.FindStorageStruct(items).Some?
    ensures StorageCode(items, gens, uses, hasEvent)
            == match LastStorage(items)
               case None => Text("")
               case Some(j) => gens.storage(items[j], uses, hasEvent).0
  {
    match LastStorage(items)
    case None => StorageCodeWithoutStorage(items, gens, uses, hasEvent);
    case Some(j) => StorageCodeIsLastStorage(items, j, gens, uses, hasEvent);
  }

  // ----- Diagnostics -----

  /** The diagnostics of consecutive runs of items are those of each run, in order. */
  lemma {:induction false} ContractDiagnosticsAppend(a: seq<Item>, b: seq<Item>, gens: Collaborators, uses: Node, hasEvent: bool)
    ensures ContractDiagnostics(a + b, gens, uses, hasEvent)
            == ContractDiagnostics(a, gens, uses, hasEvent) + ContractDiagnostics(b, gens, uses, hasEvent)
  {
    if b == [] {
      assert a + b == a;
    } else {
      var b0 := b[..|b| - 1];
      assert (a + b)[..|a + b| - 1] == a + b0;
      ContractDiagnosticsAppend(a, b0, gens, uses, hasEvent);
    }
  }

  /** The second pass raises no diagnostic exactly when no item raises one. */
  lemma {:induction false} ContractDiagnosticsEmpty(items: seq<Item>, gens: Collaborators, uses: Node, hasEvent: bool)
    ensures ContractDiagnostics(items, gens, uses, hasEvent) == []
            <==> forall i :: 0 <= i < |items| ==> ItemDiagnostics(items[i], gens, uses, hasEvent) == []
  {
    if items != [] {
      var init := items[..|items| - 1];
      ContractDiagnosticsEmpty(init, gens, uses, hasEvent);
      assert forall i :: 0 <= i < |init| ==> init[i] == items[i];
    }
  }

  /** Whether an L1 handler's second parameter exists, is a `felt252` and is named `from_address` or `_from_address`. */
  predicate ValidL1HandlerParams(params: seq<Param>) {
    |params| >= 2 && params[1].isFelt252 && params[1].name in {"from_address", "_from_address"}
  }

  /**
   * The diagnostics of one entry point: the generic-arguments one first when it has
   * generics; then the generator's own when the wrapper cannot be generated (and no
   * L1-handler check); otherwise none beyond the L1-handler checks, so that a generated
   * entry point raises nothing exactly when it has no generics and, for an L1 handler,
   * a valid second parameter.
   */
  lemma EntryPointDiagnosticsCases(ep: EntryPoint, gens: Collaborators)
    ensures var ds := EntryPointDiagnostics(ep, gens);
            ep.fn.declaration.hasGenerics
            ==> |ds| > 0 && ds[0] == Diagnostic(GENERIC_ARGS_MESSAGE, GenericParamsPtr(ep.fn.declaration))
    ensures var outcome := gens.wrapper(ep.fn, ep.functionName);
            outcome.Err? ==> EntryPointDiagnostics(ep, gens) == GenericDiagnostics(ep.fn.declaration) + outcome.error
    ensures gens.wrapper(ep.fn, ep.functionName).Ok?
            ==> (EntryPointDiagnostics(ep, gens) == []
                 <==> !ep.fn.declaration.hasGenerics
                      && (ep.kind == L1Handler ==> ValidL1HandlerParams(ep.fn.declaration.params)))
  {
    L1HandlerDiagnosticsCases(ep.fn.declaration.params);
  }
}
