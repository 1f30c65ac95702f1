/**
 * The abstract syntax the contract expander works on: the items of a module body,
 * function declarations and their parameters, the rewrite nodes it emits, the
 * diagnostics it reports, and the collaborators it delegates to (defined in other
 * crates), which the model takes as uninterpreted function values.
 */
module Syntax {
  import opened Wrappers

  /** A function parameter: its name, whether its type is `felt252` and whether it carries `mut`. */
  datatype Param = Param(name: string, isFelt252: bool, isMut: bool)

  /** A function declaration: its name, whether it has a generic-parameter list, and its parameters. */
  datatype FunctionDeclaration = FunctionDeclaration(name: string, hasGenerics: bool, params: seq<Param>)

  /** A function with a body, as it appears at module level or inside an impl. */
  datatype FunctionWithBody = FunctionWithBody(attrs: seq<string>, declaration: FunctionDeclaration)

  /** An item inside an impl body; only functions matter to the expander. */
  datatype ImplItem = ImplFunction(fn: FunctionWithBody) | OtherImplItem

  /** An item of a module body; the `leaves` of a `use` item are the identifiers of its path leaves. */
  datatype Item =
    | Constant(name: string)
    | Module(name: string)
    | Use(leaves: seq<string>)
    | Impl(name: string, attrs: seq<string>, implBody: Option<seq<ImplItem>>)
    | Struct(name: string, attrs: seq<string>)
    | Enum(name: string)
    | TypeAlias(name: string)
    | FreeFunction(fn: FunctionWithBody)
    | ExternFunction
    | ExternType
    | Trait
    | Missing
    | ImplAlias

  /** A module item: its name, attributes, optional body, and its text without trivia. */
  datatype ModuleAst = ModuleAst(name: string, attrs: seq<string>, body: Option<seq<Item>>, text: string)

  predicate HasAttr(attrs: seq<string>, attr: string) {
    attr in attrs
  }

  const CONTRACT_ATTR := "contract"
  const STORAGE_ATTR := "starknet::storage"
  const EVENT_ATTR := "event"
  const EXTERNAL_ATTR := "external"
  const STORAGE_STRUCT_NAME := "Storage"
  const L1_HANDLER_FIRST_PARAM_NAME := "from_address"

  /** The three kinds of contract entry point, each mapped to the attribute that marks it. */
  datatype EntryPointKind = External | Constructor | L1Handler {
    function Attr(): string {
      match this
      case External => "external"
      case Constructor => "constructor"
      case L1Handler => "l1_handler"
    }
  }

  /**
   * A rewrite node: literal text, a trimmed copy of an identifier, a trimmed copy of a
   * function declaration (possibly with `mut` modifiers cleared), a copy of an item,
   * a sequence of nodes, or code produced by a collaborator.
   */
  datatype Node =
    | Text(text: string)
    | Name(ident: string)
    | Declaration(declaration: FunctionDeclaration)
    | Copied(item: Item)
    | Modified(children: seq<Node>)
    | Generated(code: string)

  /** What a diagnostic points at. */
  datatype StablePtr =
    | ModulePtr(moduleName: string)
    | EmptyBodyPtr(moduleName: string)
    | GenericParamsPtr(declaration: FunctionDeclaration)
    | ParamPtr(param: Param)
    | ParamListPtr(params: seq<Param>)
    | ForeignPtr(id: nat)

  datatype Diagnostic = Diagnostic(message: string, stablePtr: StablePtr)

  /** The generated file: its name, its content (the template's fragments) and the contracts it defines. */
  datatype GeneratedFile = GeneratedFile(name: string, content: ContractCode, contracts: seq<string>)

  /**
   * The fragments the output template interpolates, slot by slot. The template text itself
   * and the patch map are not modelled.
   */
  datatype ContractCode = ContractCode(
    testClassHash: string,
    storageCode: Node,
    eventFunctions: seq<Node>,
    abiFunctions: seq<Node>,
    abiEvents: seq<Node>,
    extraUses: Node,
    generatedExternalFunctions: seq<Node>,
    generatedL1HandlerFunctions: seq<Node>,
    generatedConstructorFunctions: seq<Node>)

  datatype PluginResult = PluginResult(code: Option<GeneratedFile>, diagnostics: seq<Diagnostic>, removeOriginalItem: bool)

  /** `PluginResult::default()`: no code, no diagnostics, keep the original item. */
  const DefaultResult := PluginResult(None, [], false)

  datatype EventOutput = EventOutput(rewrite: Option<(Node, Node)>, diagnostics: seq<Diagnostic>)

  /**
   * The collaborators defined in other crates: the entry-point classifier, the wrapper
   * generator, the event lowerer, the storage-struct expander and the StarkNet Keccak digest.
   */
  datatype Collaborators = Collaborators(
    classify: FunctionWithBody -> Option<EntryPointKind>,
    wrapper: (FunctionWithBody, Node) -> Result<Node, seq<Diagnostic>>,
    event: FunctionWithBody -> EventOutput,
    storage: (Item, Node, bool) -> (Node, seq<Diagnostic>),
    keccak: string -> string)
}
