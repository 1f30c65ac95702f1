/**
 * The first pass over a contract body (the first loop of `handle_contract_by_storage`):
 * it collects the use-set that re-binds the module's names inside the generated
 * submodules, detects whether the contract declares an `Event`, and keeps the
 * original items that are not consumed by code generation.
 */
module UseSet {
  import opened Wrappers
  import opened Syntax
  import opened OrderedMaps
  import Gate

  predicate IsEventFunction(item: Item) {
    item.FreeFunction? && HasAttr(item.fn.attrs, EVENT_ATTR)
  }

  /** Items that only generate other code: `#[event]` free functions and the `Storage` struct. */
  predicate IsSkipped(item: Item) {
    IsEventFunction(item) || Gate.IsStorageStruct(item)
  }

  /** A struct or enum named `Event`, or a `use` one of whose leaves is `Event`. */
  predicate DeclaresEvent(item: Item) {
    || (item.Struct? && item.name == "Event")
    || (item.Enum? && item.name == "Event")
    || (item.Use? && "Event" in item.leaves)
  }

  ghost predicate HasEvent(items: seq<Item>) {
    exists i :: 0 <= i < |items| && DeclaresEvent(items[i])
  }

  /** `HasEvent`, computed item by item in source order. */
  predicate AnyDeclaresEvent(items: seq<Item>) {
    items != [] && (AnyDeclaresEvent(items[..|items| - 1]) || DeclaresEvent(items[|items| - 1]))
  }

  lemma {:induction false} AnyDeclaresEventIsHasEvent(items: seq<Item>)
    ensures AnyDeclaresEvent(items) == HasEvent(items)
  {
    if items != [] {
      var init := items[..|items| - 1];
      AnyDeclaresEventIsHasEvent(init);
      assert forall i :: 0 <= i < |init| ==> init[i] == items[i];
    }
  }

  predicate NoImplAlias(items: seq<Item>) {
    forall i :: 0 <= i < |items| ==> !items[i].ImplAlias?
  }

  /**
   * The identifiers an item binds for the generated submodules: the name of a constant,
   * module, impl, struct, enum or type alias, or every leaf of a `use`. Externs, traits,
   * free functions, missing items and skipped items bind nothing.
   */
  function UseNames(item: Item): seq<string> {
    if IsSkipped(item) then []
    else match item
      case Constant(name) => [name]
      case Module(name) => [name]
      case Use(leaves) => leaves
      case Impl(name, _, _) => [name]
      case Struct(name, _) => [name]
      case Enum(name) => [name]
      case TypeAlias(name) => [name]
      case _ => []
  }

  function AllUseNames(items: seq<Item>): seq<string> {
    if items == [] then [] else AllUseNames(items[..|items| - 1]) + UseNames(items[|items| - 1])
  }

  function SuperBinding(name: string): (string, string) {
    (name, "super::" + name)
  }

  function SuperBindings(names: seq<string>): seq<(string, string)> {
    if names == [] then [] else SuperBindings(names[..|names| - 1]) + [SuperBinding(names[|names| - 1])]
  }

  /** The fixed standard-library seeds, inserted after the user's names. */
  const SEED_USES: seq<(string, string)> := [
    ("ClassHashSerde", "starknet::class_hash::ClassHashSerde"),
    ("ContractAddressSerde", "starknet::contract_address::ContractAddressSerde"),
    ("StorageAddressSerde", "starknet::storage_access::StorageAddressSerde"),
    ("OptionTrait", "option::OptionTrait"),
    ("OptionTraitImpl", "option::OptionTraitImpl")
  ]

  /** The use-set: every user binding inserted in source order, then the seeds, first insertion winning. */
  function UserUses(items: seq<Item>): OrderedHashMap<string, string> {
    InsertAll(Empty(), SuperBindings(AllUseNames(items)))
  }

  function ExtraUses(items: seq<Item>): OrderedHashMap<string, string> {
    InsertAll(UserUses(items), SEED_USES)
  }

  /** The items copied into the output, in source order. */
  function KeptItems(items: seq<Item>): seq<Node> {
    if items == [] then []
    else
      var last := items[|items| - 1];
      KeptItems(items[..|items| - 1]) + (if IsSkipped(last) then [] else [Copied(last)])
  }

  function UseLine(path: string): Node {
    Text("\n        use " + path + ";")
  }

  /** The serialised use-set: one `use <path>;` line per value, in insertion order. */
  function UsesNode(uses: OrderedHashMap<string, string>): Node {
    var values := Values(uses);
    Modified(seq(|values|, i requires 0 <= i < |values| => UseLine(values[i])))
  }

  /** The serialised use-set has exactly one line per entry, in order, importing the entry's value. */
  lemma UsesNodeLines(uses: OrderedHashMap<string, string>)
    ensures UsesNode(uses).Modified? && |UsesNode(uses).children| == |uses.entries|
    ensures forall i :: 0 <= i < |uses.entries| ==> UsesNode(uses).children[i] == UseLine(uses.entries[i].1)
  {
  }

  lemma {:induction false} SuperBindingsAppend(a: seq<string>, b: seq<string>)
    ensures SuperBindings(a + b) == SuperBindings(a) + SuperBindings(b)
  {
    if b == [] {
      assert a + b == a;
    } else {
      assert (a + b)[..|a + b| - 1] == a + b[..|b| - 1];
      SuperBindingsAppend(a, b[..|b| - 1]);
    }
  }

  /** A name bound by the user reads as `super::<name>`; any other name is not bound. */
  lemma {:induction false} SuperBindingsLookup(names: seq<string>, key: string)
    ensures Lookup(SuperBindings(names), key) == if key in names then Some("super::" + key) else None
  {
    if names != [] {
      var init := names[..|names| - 1];
      SuperBindingsLookup(init, key);
      LookupAppend(SuperBindings(init), [SuperBinding(names[|names| - 1])], key);
      assert names == init + [names[|names| - 1]];
    }
  }

  /** The names reaching the use-set are exactly those the module's items bind. */
  lemma {:induction false} AllUseNamesMembers(items: seq<Item>, name: string)
    ensures name in AllUseNames(items) <==> exists i :: 0 <= i < |items| && name in UseNames(items[i])
  {
    if items != [] {
      var init := items[..|items| - 1];
      AllUseNamesMembers(init, name);
      assert forall i :: 0 <= i < |init| ==> init[i] == items[i];
    }
  }

  /**
   * First insertion wins for the whole use-set: a name bound in the module maps to
   * `super::<name>` even when it is also a seed; a seed maps to its standard-library path
   * only when the module does not bind it; a key occurs at most once; and the user
   * bindings form a prefix that the seeds never reorder.
   */
  lemma ExtraUsesBindings(items: seq<Item>, key: string)
    ensures UniqueKeys(ExtraUses(items))
    ensures key in AllUseNames(items) ==> Lookup(ExtraUses(items).entries, key) == Some("super::" + key)
    ensures key !in AllUseNames(items) ==> Lookup(ExtraUses(items).entries, key) == Lookup(SEED_USES, key)
    ensures UserUses(items).entries <= ExtraUses(items).entries
  {
    var names := AllUseNames(items);
    assert UniqueKeys(Empty<string, string>());
    InsertAllKeepsUniqueKeys(Empty(), SuperBindings(names));
    InsertAllKeepsUniqueKeys(UserUses(items), SEED_USES);
    InsertAllLookup(UserUses(items), SEED_USES, key);
    InsertAllLookup(Empty(), SuperBindings(names), key);
    assert Empty<string, string>().entries + SuperBindings(names) == SuperBindings(names);
    LookupAppend(UserUses(items).entries, SEED_USES, key);
    SuperBindingsLookup(names, key);
    InsertAllExtends(UserUses(items), SEED_USES);
  }

  /** The walk over the leaves of one `use` item. */
  method InsertUseLeaves(uses: OrderedHashMap<string, string>, hasEvent: bool, leaves: seq<string>)
    returns (newUses: OrderedHashMap<string, string>, newHasEvent: bool)
    ensures newUses == InsertAll(uses, SuperBindings(leaves))
    ensures newHasEvent == (hasEvent || "Event" in leaves)
  {
    newUses, newHasEvent := uses, hasEvent;
    var j := 0;
    while j < |leaves|
      invariant 0 <= j <= |leaves|
      invariant newUses == InsertAll(uses, SuperBindings(leaves[..j]))
      invariant newHasEvent == (hasEvent || "Event" in leaves[..j])
    {
      if leaves[j] == "Event" {
        newHasEvent := true;
      }
      assert leaves[..j + 1] == leaves[..j] + [leaves[j]];
      SuperBindingsAppend(leaves[..j], [leaves[j]]);
      InsertAllAppend(uses, SuperBindings(leaves[..j]), [SuperBinding(leaves[j])]);
      newUses := Insert(newUses, leaves[j], "super::" + leaves[j]);
      j := j + 1;
    }
    assert leaves[..j] == leaves;
  }

  /** The body of the first loop for one item that is not skipped. */
  method ScanItem(uses: OrderedHashMap<string, string>, hasEvent: bool, item: Item)
    returns (newUses: OrderedHashMap<string, string>, newHasEvent: bool)
    requires !item.ImplAlias? && !IsSkipped(item)
    ensures newUses == InsertAll(uses, SuperBindings(UseNames(item)))
    ensures newHasEvent == (hasEvent || DeclaresEvent(item))
  {
    newUses, newHasEvent := uses, hasEvent;
    if (item.Struct? && item.name == "Event") || (item.Enum? && item.name == "Event") {
      newHasEvent := true;
    }
    var ident: Option<string>;
    match item {
      case Constant(name) => ident := Some(name);
      case Module(name) => ident := Some(name);
      case Use(leaves) =>
        newUses, newHasEvent := InsertUseLeaves(newUses, newHasEvent, leaves);
        ident := None;
      case Impl(name, _, _) => ident := Some(name);
      case Struct(name, _) => ident := Some(name);
      case Enum(name) => ident := Some(name);
      case TypeAlias(name) => ident := Some(name);
      case ExternFunction => ident := None;
      case ExternType => ident := None;
      case Trait => ident := None;
      case FreeFunction(_) => ident := None;
      case Missing => ident := None;
    }
    if ident.Some? {
      assert SuperBindings([ident.value]) == [SuperBinding(ident.value)] by {
        assert [ident.value][..0] == [];
      }
      InsertAllSingle(newUses, SuperBinding(ident.value));
      newUses := Insert(newUses, ident.value, "super::" + ident.value);
    }
  }

  /** How the use names, the kept items and the user use-set grow by one item. */
  lemma ScanStep(items: seq<Item>, i: nat)
    requires i < |items|
    ensures AllUseNames(items[..i + 1]) == AllUseNames(items[..i]) + UseNames(items[i])
    ensures KeptItems(items[..i + 1]) == KeptItems(items[..i]) + (if IsSkipped(items[i]) then [] else [Copied(items[i])])
    ensures UserUses(items[..i + 1]) == InsertAll(UserUses(items[..i]), SuperBindings(UseNames(items[i])))
    ensures IsSkipped(items[i]) ==> UseNames(items[i]) == [] && !DeclaresEvent(items[i])
    ensures AnyDeclaresEvent(items[..i + 1]) == (AnyDeclaresEvent(items[..i]) || DeclaresEvent(items[i]))
  {
    var prefix, names := items[..i + 1], AllUseNames(items[..i]);
    assert prefix[..i] == items[..i] && prefix[i] == items[i];
    SuperBindingsAppend(names, UseNames(items[i]));
    InsertAllAppend(Empty(), SuperBindings(names), SuperBindings(UseNames(items[i])));
  }

  /** The seeding loop: each standard-library seed is inserted after the user's names. */
  method AddSeeds(uses: OrderedHashMap<string, string>) returns (newUses: OrderedHashMap<string, string>)
    ensures newUses == InsertAll(uses, SEED_USES)
  {
    newUses := uses;
    for k := 0 to |SEED_USES|
      invariant newUses == InsertAll(uses, SEED_USES[..k])
    {
      assert SEED_USES[..k + 1][..k] == SEED_USES[..k];
      newUses := Insert(newUses, SEED_USES[k].0, SEED_USES[k].1);
    }
    assert SEED_USES[..|SEED_USES|] == SEED_USES;
  }

  /**
   * The first loop of `handle_contract_by_storage`, then the seeding loop: the use-set,
   * the `has_event` flag and the kept original items.
   */
  method ScanItems(items: seq<Item>) returns (extraUses: OrderedHashMap<string, string>, hasEvent: bool, kept: seq<Node>)
    requires NoImplAlias(items)
    ensures extraUses == ExtraUses(items)
    ensures hasEvent == HasEvent(items)
    ensures kept == KeptItems(items)
  {
    extraUses, hasEvent, kept := Empty(), false, [];
    var i := 0;
    assert items[..i] == [];
    while i < |items|
      invariant 0 <= i <= |items|
      invariant extraUses == UserUses(items[..i])
      invariant hasEvent == AnyDeclaresEvent(items[..i])
      invariant kept == KeptItems(items[..i])
    {
      var item := items[i];
      ScanStep(items, i);
      if !IsSkipped(item) {
        kept := kept + [Copied(item)];
        extraUses, hasEvent := ScanItem(extraUses, hasEvent, item);
      } else {
        assert InsertAll(extraUses, SuperBindings(UseNames(item))) == extraUses;
      }
      i := i + 1;
    }
    assert items[..i] == items;
    AnyDeclaresEventIsHasEvent(items);
    extraUses := AddSeeds(extraUses);
  }
}
