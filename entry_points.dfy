/**
 * Entry points: the ABI-trait row an entry point yields (its declaration with `mut`
 * modifiers cleared), the dispatcher wrapper it yields when the wrapper generator
 * succeeds, the diagnostics it raises, and the L1-handler parameter validator.
 */
module EntryPoints {
  import opened Wrappers
  import opened Syntax

  const GENERIC_ARGS_MESSAGE := "Contract entry points cannot have generic arguments"
  const MISSING_FROM_ADDRESS_MESSAGE := "An L1 handler must have the 'from_address' as its second parameter."
  const NOT_FELT252_MESSAGE := "The second parameter of an L1 handler must be of type `felt252`."
  const NOT_FROM_ADDRESS_MESSAGE := "The second parameter of an L1 handler must be named 'from_address'."

  /** An entry point to rewrite: its kind, its function and the (possibly `Impl::func`) name the wrapper calls. */
  datatype EntryPoint = EntryPoint(kind: EntryPointKind, fn: FunctionWithBody, functionName: Node)

  /** The separator pushed after every generated wrapper. */
  const SEPARATOR := Text("\n        ")

  /** Removes one leading underscore, if there is one. */
  function MaybeStripUnderscore(s: string): string {
    if |s| > 0 && s[0] == '_' then s[1..] else s
  }

  /** The second parameter of an L1 handler may be called `from_address` or `_from_address`, and nothing else. */
  lemma FromAddressNames(name: string)
    ensures MaybeStripUnderscore(name) == L1_HANDLER_FIRST_PARAM_NAME
            <==> name == "from_address" || name == "_from_address"
  {
    if |name| > 0 && name[0] == '_' && name[1..] == L1_HANDLER_FIRST_PARAM_NAME {
      assert name == "_" + name[1..];
    }
  }

  /**
   * The diagnostics `validate_l1_handler_first_parameter` raises for a parameter list:
   * one when there is no parameter at index 1; otherwise one for a type other than
   * `felt252` and, after it, one for a name other than `from_address`/`_from_address`.
   */
  function L1HandlerDiagnostics(params: seq<Param>): seq<Diagnostic>
  {
    if |params| < 2 then [Diagnostic(MISSING_FROM_ADDRESS_MESSAGE, ParamListPtr(params))]
    else
      var param := params[1];
      (if !param.isFelt252 then [Diagnostic(NOT_FELT252_MESSAGE, ParamPtr(param))] else [])
      + (if MaybeStripUnderscore(param.name) != L1_HANDLER_FIRST_PARAM_NAME
         then [Diagnostic(NOT_FROM_ADDRESS_MESSAGE, ParamPtr(param))] else [])
  }

  /**
   * An L1 handler is accepted exactly when its second parameter exists, is a `felt252` and
   * is named `from_address` or `_from_address`; each defect raises its own diagnostic,
   * all pointing at that parameter, the type's before the name's.
   */
  lemma L1HandlerDiagnosticsCases(params: seq<Param>)
    ensures var ds := L1HandlerDiagnostics(params);
            |params| < 2 ==> ds == [Diagnostic(MISSING_FROM_ADDRESS_MESSAGE, ParamListPtr(params))]
    ensures var ds := L1HandlerDiagnostics(params);
            |params| >= 2 ==>
              && |ds| <= 2
              && (forall d :: d in ds ==> d.stablePtr == ParamPtr(params[1]))
              && (Diagnostic(NOT_FELT252_MESSAGE, ParamPtr(params[1])) in ds <==> !params[1].isFelt252)
              && (Diagnostic(NOT_FROM_ADDRESS_MESSAGE, ParamPtr(params[1])) in ds
                  <==> params[1].name != "from_address" && params[1].name != "_from_address")
              && (ds == [] <==> params[1].isFelt252 && params[1].name in {"from_address", "_from_address"})
              && (|ds| == 2 ==> ds[0].message == NOT_FELT252_MESSAGE && ds[1].message == NOT_FROM_ADDRESS_MESSAGE)
  {
    if |params| >= 2 {
      FromAddressNames(params[1].name);
    }
  }

  /** `validate_l1_handler_first_parameter`: pushes its diagnostics onto `diagnostics`. */
  method ValidateL1HandlerFirstParameter(params: seq<Param>, diagnostics: seq<Diagnostic>)
    returns (newDiagnostics: seq<Diagnostic>)
    ensures newDiagnostics == diagnostics + L1HandlerDiagnostics(params)
  {
    newDiagnostics := diagnostics;
    if |params| > 1 {
      var firstParam := params[1];
      if !firstParam.isFelt252 {
        newDiagnostics := newDiagnostics + [Diagnostic(NOT_FELT252_MESSAGE, ParamPtr(firstParam))];
      }
      if MaybeStripUnderscore(firstParam.name) != L1_HANDLER_FIRST_PARAM_NAME {
        newDiagnostics := newDiagnostics + [Diagnostic(NOT_FROM_ADDRESS_MESSAGE, ParamPtr(firstParam))];
      }
    } else {
      newDiagnostics := newDiagnostics + [Diagnostic(MISSING_FROM_ADDRESS_MESSAGE, ParamListPtr(params))];
    }
  }

  /** The parameters as the ABI row shows them: same names and types, no `mut`. */
  function MutCleared(params: seq<Param>): seq<Param> {
    if params == [] then []
    else MutCleared(params[..|params| - 1]) + [params[|params| - 1].(isMut := false)]
  }

  /** Clearing `mut` keeps the parameter list's length and every parameter's name and type. */
  lemma {:induction false} MutClearedPointwise(params: seq<Param>)
    ensures |MutCleared(params)| == |params|
    ensures forall i :: 0 <= i < |params| ==> MutCleared(params)[i] == params[i].(isMut := false)
  {
    if params != [] {
      MutClearedPointwise(params[..|params| - 1]);
    }
  }

  /** The loop of `handle_entry_point` that clears the `mut` modifier of every parameter carrying one. */
  method ClearMutModifiers(params: seq<Param>) returns (cleared: seq<Param>)
    ensures cleared == MutCleared(params)
  {
    cleared := params;
    for paramIdx := 0 to |params|
      invariant |cleared| == |params|
      invariant forall j :: 0 <= j < paramIdx ==> cleared[j] == params[j].(isMut := false)
      invariant forall j :: paramIdx <= j < |params| ==> cleared[j] == params[j]
    {
      if cleared[paramIdx].isMut {
        cleared := cleared[paramIdx := cleared[paramIdx].(isMut := false)];
      }
    }
    MutClearedPointwise(params);
  }

  /** The trimmed declaration the ABI row copies, with its parameters' `mut` cleared. */
  function AbiDeclaration(declaration: FunctionDeclaration): FunctionDeclaration {
    declaration.(params := MutCleared(declaration.params))
  }

  /** The ABI-trait row of an entry point: `#[<attr>]`, the declaration without `mut`, then `;`. */
  function AbiRow(ep: EntryPoint): Node {
    Modified([Text("#[" + ep.kind.Attr() + "]\n        "),
              Declaration(AbiDeclaration(ep.fn.declaration)),
              Text(";\n        ")])
  }

  /** An ABI row none of whose declared parameters keeps a `mut` modifier. */
  predicate MutFreeRow(row: Node) {
    && row.Modified?
    && |row.children| == 3
    && row.children[1].Declaration?
    && forall p :: p in row.children[1].declaration.params ==> !p.isMut
  }

  /** No ABI row keeps a `mut` modifier, and it preserves the declaration's name, generics and parameter names. */
  lemma AbiRowIsMutFree(ep: EntryPoint)
    ensures MutFreeRow(AbiRow(ep))
    ensures AbiRow(ep).children[0] == Text("#[" + ep.kind.Attr() + "]\n        ")
    ensures var d := AbiRow(ep).children[1].declaration;
            && d.name == ep.fn.declaration.name && d.hasGenerics == ep.fn.declaration.hasGenerics
            && |d.params| == |ep.fn.declaration.params|
            && forall i :: 0 <= i < |d.params| ==> d.params[i].name == ep.fn.declaration.params[i].name
  {
    MutClearedPointwise(ep.fn.declaration.params);
    var ps := AbiRow(ep).children[1].declaration.params;
    forall p | p in ps ensures !p.isMut {
      var i :| 0 <= i < |ps| && ps[i] == p;
    }
  }

  /** What the wrapper generator's outcome appends to the wrapper list of kind `kind`. */
  function WrapperNodes(ep: EntryPoint, kind: EntryPointKind, gens: Collaborators): seq<Node> {
    match gens.wrapper(ep.fn, ep.functionName)
    case Ok(generated) => if ep.kind == kind then [generated, SEPARATOR] else []
    case Err(_) => []
  }

  function GenericDiagnostics(declaration: FunctionDeclaration): seq<Diagnostic> {
    if declaration.hasGenerics then [Diagnostic(GENERIC_ARGS_MESSAGE, GenericParamsPtr(declaration))] else []
  }

  /** What follows the generic-arguments check: the L1-handler checks when the wrapper was generated, else the generator's diagnostics. */
  function WrapperDiagnostics(ep: EntryPoint, gens: Collaborators): seq<Diagnostic> {
    match gens.wrapper(ep.fn, ep.functionName)
    case Ok(_) => if ep.kind == L1Handler then L1HandlerDiagnostics(ep.fn.declaration.params) else []
    case Err(diagnostics) => diagnostics
  }

  /** Every diagnostic one entry point raises, in order. */
  function EntryPointDiagnostics(ep: EntryPoint, gens: Collaborators): seq<Diagnostic> {
    GenericDiagnostics(ep.fn.declaration) + WrapperDiagnostics(ep, gens)
  }
}
