/**
 * The structural gate run on every module item (`handle_module`): it never produces code;
 * on a module carrying `#[contract]` it reports the first structural defect it finds.
 */
module Gate {
  import opened Wrappers
  import opened Syntax

  const NO_BODY_MESSAGE := "Contracts without body are not supported."
  const NO_STORAGE_MESSAGE := "Contracts must define a 'Storage' struct."
  const STORAGE_ATTR_MESSAGE := "'Storage' struct must be annotated with #[starknet::storage]."

  predicate IsStorageStruct(item: Item) {
    item.Struct? && item.name == STORAGE_STRUCT_NAME
  }

  /** The position of the first struct named `Storage`, as `find` returns it. */
  function FindStorageStruct(items: seq<Item>): (r: Option<nat>)
    ensures r.Some? ==> r.value < |items| && IsStorageStruct(items[r.value])
                        && forall j :: 0 <= j < r.value ==> !IsStorageStruct(items[j])
    ensures r.None? ==> forall j :: 0 <= j < |items| ==> !IsStorageStruct(items[j])
  {
    if items == [] then None
    else if IsStorageStruct(items[0]) then Some(0)
    else match FindStorageStruct(items[1..])
      case None => None
      case Some(i) => Some(i + 1)
  }

  /** A contract whose first `Storage` struct carries `#[starknet::storage]`. */
  ghost predicate WellFormedContract(m: ModuleAst) {
    && m.body.Some?
    && exists i :: 0 <= i < |m.body.value| && IsStorageStruct(m.body.value[i])
                   && HasAttr(m.body.value[i].attrs, STORAGE_ATTR)
                   && forall j :: 0 <= j < i ==> !IsStorageStruct(m.body.value[j])
  }

  function ModuleDiagnostic(m: ModuleAst, message: string): PluginResult {
    PluginResult(None, [Diagnostic(message, ModulePtr(m.name))], false)
  }

  function HandleModule(m: ModuleAst): (r: PluginResult)
    ensures r.code.None? && !r.removeOriginalItem
    ensures !HasAttr(m.attrs, CONTRACT_ATTR) ==> r == DefaultResult
    ensures HasAttr(m.attrs, CONTRACT_ATTR) && m.body.None?
            ==> r.diagnostics == [Diagnostic(NO_BODY_MESSAGE, ModulePtr(m.name))]
    ensures HasAttr(m.attrs, CONTRACT_ATTR) && m.body.Some?
            && (forall i :: 0 <= i < |m.body.value| ==> !IsStorageStruct(m.body.value[i]))
            ==> r.diagnostics == [Diagnostic(NO_STORAGE_MESSAGE, ModulePtr(m.name))]
    ensures HasAttr(m.attrs, CONTRACT_ATTR) && m.body.Some?
            && (exists i :: 0 <= i < |m.body.value| && IsStorageStruct(m.body.value[i])
                            && !HasAttr(m.body.value[i].attrs, STORAGE_ATTR)
                            && forall j :: 0 <= j < i ==> !IsStorageStruct(m.body.value[j]))
            ==> r.diagnostics == [Diagnostic(STORAGE_ATTR_MESSAGE, ModulePtr(m.name))]
    // Exactly one diagnostic on a malformed contract, none otherwise.
    ensures |r.diagnostics| == if HasAttr(m.attrs, CONTRACT_ATTR) && !WellFormedContract(m) then 1 else 0
    ensures r == DefaultResult <==> !HasAttr(m.attrs, CONTRACT_ATTR) || WellFormedContract(m)
  {
    if !HasAttr(m.attrs, CONTRACT_ATTR) then DefaultResult
    else match m.body
      case None => ModuleDiagnostic(m, NO_BODY_MESSAGE)
      case Some(items) =>
        match FindStorageStruct(items)
        case None => ModuleDiagnostic(m, NO_STORAGE_MESSAGE)
        case Some(i) =>
          if !HasAttr(items[i].attrs, STORAGE_ATTR) then ModuleDiagnostic(m, STORAGE_ATTR_MESSAGE)
          else DefaultResult
  }
}
