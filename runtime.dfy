/**
 * Runtime values, the scope chain and user functions (Environment.kt, LoxFunction.kt).
 *
 * An environment is an object holding a mutable set of declared names, a mutable map
 * from names to values and an immutable link to its enclosing environment. The chain
 * seen from one environment is summarised, innermost first, by the sequence
 * `Frames()`, and every operation on the chain is specified against that sequence.
 */
module Runtime {
  import opened Results
  import opened SeqFacts
  import opened Syntax
  import opened Numbers
  import opened Diagnostics

  /** A runtime value (`Any?` in the source); `NilV` is Kotlin's `null`. */
  datatype Value = NilV | BoolV(b: bool) | NumberV(n: Number) | StringV(s: string) | FunctionV(callee: LoxFunction)

  /** What one environment holds: its declared names and its map from names to values. */
  datatype Frame = Frame(declared: set<string>, values: map<string, Value>)

  /** `values.getOrElse(name)` finds something: the key is present with a non-null value. */
  predicate Binds(f: Frame, name: string) {
    name in f.values && f.values[name] != NilV
  }

  /** `assign` writes into this frame: the name is declared or is a key of the map, even one mapped to nil. */
  predicate Holds(f: Frame, name: string) {
    name in f.declared || name in f.values
  }

  function UndefinedVariable(name: string): string {
    "Undefined variable '" + name + "'."
  }

  /** The value `get` finds along a chain of frames: the one in the innermost frame that binds the name. */
  function Lookup(frames: seq<Frame>, name: string): (r: Option<Value>)
    ensures r.Some? ==> exists j :: 0 <= j < |frames| && Binds(frames[j], name) && r.value == frames[j].values[name]
                                    && (forall k :: 0 <= k < j ==> !Binds(frames[k], name))
    ensures r.None? <==> forall j :: 0 <= j < |frames| ==> !Binds(frames[j], name)
  {
    if frames == [] then None
    else if Binds(frames[0], name) then Some(frames[0].values[name])
    else
      var r := Lookup(frames[1..], name);
      assert r.Some? ==> exists j :: 1 <= j < |frames| && Binds(frames[j], name) && r.value == frames[j].values[name]
                                     && (forall k :: 0 <= k < j ==> !Binds(frames[k], name)) by {
        if r.Some? {
          var j :| 0 <= j < |frames[1..]| && Binds(frames[1..][j], name) && r.value == frames[1..][j].values[name]
                   && (forall k :: 0 <= k < j ==> !Binds(frames[1..][k], name));
          assert forall k :: 1 <= k < j + 1 ==> frames[k] == frames[1..][k - 1];
        }
      }
      assert r.None? ==> forall j :: 1 <= j < |frames| ==> !Binds(frames[j], name) by {
        if r.None? {
          forall j | 1 <= j < |frames| ensures !Binds(frames[j], name) {
            assert frames[j] == frames[1..][j - 1];
          }
        }
      }
      r
  }

  /** The position of the frame `assign` writes into: the innermost one that holds the name. */
  function Holder(frames: seq<Frame>, name: string): (r: Option<nat>)
    ensures r.Some? ==> r.value < |frames| && Holds(frames[r.value], name)
                        && forall k :: 0 <= k < r.value ==> !Holds(frames[k], name)
    ensures r.None? <==> forall j :: 0 <= j < |frames| ==> !Holds(frames[j], name)
  {
    if frames == [] then None
    else if Holds(frames[0], name) then Some(0)
    else match Holder(frames[1..], name)
      case None =>
        assert forall j :: 1 <= j < |frames| ==> frames[j] == frames[1..][j - 1];
        None
      case Some(i) =>
        assert forall k :: 1 <= k < i + 1 ==> frames[k] == frames[1..][k - 1];
        Some(i + 1)
  }

  /** The chain after `values[name] = value` in frame `i`. */
  function Store(frames: seq<Frame>, i: nat, name: string, value: Value): seq<Frame>
    requires i < |frames|
  {
    frames[i := frames[i].(values := frames[i].values[name := value])]
  }

  /** When the first frame does not hold the name, the holder and the write are those of the rest of the chain. */
  lemma StoreBeyond(frame: Frame, outer: seq<Frame>, name: string, value: Value)
    requires !Holds(frame, name)
    ensures match Holder([frame] + outer, name)
            case Some(i) => 0 < i && Holder(outer, name) == Some(i - 1)
                            && Store([frame] + outer, i, name, value) == [frame] + Store(outer, i - 1, name, value)
            case None => Holder(outer, name).None?
  {
    var frames := [frame] + outer;
    assert frames[1..] == outer;
    match Holder(frames, name)
    case Some(i) =>
      assert Store(frames, i, name, value)[1..] == Store(outer, i - 1, name, value);
    case None =>
  }

  /**
   * After `assign(name, value)` succeeds with a non-nil value, `get(name)` from the
   * same environment returns that value: no frame inside the one written binds the name.
   */
  lemma {:induction false} AssignThenGet(frames: seq<Frame>, name: string, value: Value)
    requires Holder(frames, name).Some? && value != NilV
    ensures Lookup(Store(frames, Holder(frames, name).value, name, value), name) == Some(value)
    decreases |frames|
  {
    var i := Holder(frames, name).value;
    var after := Store(frames, i, name, value);
    if i == 0 {
      assert Binds(after[0], name);
    } else {
      assert !Holds(frames[0], name);
      assert Holder(frames[1..], name) == Some(i - 1);
      AssignThenGet(frames[1..], name, value);
      assert after[1..] == Store(frames[1..], i - 1, name, value);
      assert after[0] == frames[0];
    }
  }

  /** `assign` to one name leaves what `get` finds for every other name unchanged. */
  lemma {:induction false} AssignKeepsOtherNames(frames: seq<Frame>, i: nat, name: string, value: Value, other: string)
    requires i < |frames| && other != name
    ensures Lookup(Store(frames, i, name, value), other) == Lookup(frames, other)
    decreases |frames|
  {
    var after := Store(frames, i, name, value);
    assert Binds(after[0], other) == Binds(frames[0], other);
    if i > 0 && !Binds(frames[0], other) {
      AssignKeepsOtherNames(frames[1..], i - 1, name, value, other);
      assert after[1..] == Store(frames[1..], i - 1, name, value);
    } else if i == 0 && !Binds(frames[0], other) {
      assert after[1..] == frames[1..];
    }
  }

  /**
   * Assigning nil hides nothing and finds nothing: `get` then skips the frame written,
   * as `getOrElse` treats a nil value as missing, and finds the binding of an outer frame.
   */
  lemma {:induction false} AssignNilFallsThrough(frames: seq<Frame>, name: string)
    requires Holder(frames, name).Some?
    ensures var i := Holder(frames, name).value;
            Lookup(Store(frames, i, name, NilV), name) == Lookup(frames[i + 1..], name)
    decreases |frames|
  {
    var i := Holder(frames, name).value;
    var after := Store(frames, i, name, NilV);
    if i == 0 {
      assert !Binds(after[0], name);
      assert after[1..] == frames[1..];
    } else {
      assert !Holds(frames[0], name);
      assert Holder(frames[1..], name) == Some(i - 1);
      AssignNilFallsThrough(frames[1..], name);
      assert after[1..] == Store(frames[1..], i - 1, name, NilV);
      assert frames[1..][i..] == frames[i + 1..];
    }
  }

  /** One scope. `Repr` is the chain from this environment outwards; `enclosing` never changes. */
  class Environment {
    const enclosing: Environment?
    var declared: set<string>
    var values: map<string, Value>
    ghost const Repr: set<Environment>

    ghost predicate Valid()
      decreases Repr
    {
      this in Repr &&
      if enclosing == null then Repr == {this}
      else enclosing in Repr && enclosing.Repr < Repr && this !in enclosing.Repr && enclosing.Valid()
    }

    /** The chain seen from this environment, innermost first. */
    function Frames(): (frames: seq<Frame>)
      requires Valid()
      reads Repr
      decreases Repr
      ensures |frames| >= 1 && frames[0] == Frame(declared, values)
    {
      [Frame(declared, values)] + (if enclosing == null then [] else enclosing.Frames())
    }

    constructor (enclosing: Environment?)
      requires enclosing != null ==> enclosing.Valid()
      ensures Valid() && this.enclosing == enclosing
      ensures Repr == {this} + (if enclosing == null then {} else enclosing.Repr)
      ensures Frames() == [Frame({}, map[])] + (if enclosing == null then [] else enclosing.Frames())
    {
      this.enclosing := enclosing;
      declared := {};
      values := map[];
      Repr := {this} + (if enclosing == null then {} else enclosing.Repr);
    }

    /** `declare`: the name becomes declared here; no value changes. */
    method Declare(name: string)
      requires Valid()
      modifies this
      ensures Valid()
      ensures declared == old(declared) + {name} && values == old(values)
      ensures Frames() == [Frame(declared, values)] + old(Frames())[1..]
    {
      declared := declared + {name};
    }

    /** `define`: the name becomes declared here and bound to the value here, and in no other frame. */
    method Define(name: string, value: Value)
      requires Valid()
      modifies this
      ensures Valid()
      ensures declared == old(declared) + {name} && values == old(values)[name := value]
      ensures Frames() == [Frame(declared, values)] + old(Frames())[1..]
    {
      declared := declared + {name};
      values := values[name := value];
    }

    /** `get`: the innermost non-nil binding on the chain, or "Undefined variable" carrying the token. */
    function Get(name: Token): (r: Result<Value, RuntimeError>)
      requires Valid()
      reads Repr
      decreases Repr
      ensures r == match Lookup(Frames(), name.lexeme)
                   case Some(v) => Success(v)
                   case None => Failure(RuntimeError(name, UndefinedVariable(name.lexeme)))
    {
      if name.lexeme in values && values[name.lexeme] != NilV then Success(values[name.lexeme])
      else if enclosing != null then enclosing.Get(name)
      else Failure(RuntimeError(name, UndefinedVariable(name.lexeme)))
    }

    /**
     * `assign`: writes into the innermost frame that holds the name and changes nothing
     * else; when no frame holds it, nothing changes and "Undefined variable" is raised.
     */
    method Assign(name: Token, value: Value) returns (error: Option<RuntimeError>)
      requires Valid()
      modifies Repr
      decreases Repr
      ensures Valid()
      ensures match Holder(old(Frames()), name.lexeme)
              case Some(i) => error == None && Frames() == Store(old(Frames()), i, name.lexeme, value)
              case None => error == Some(RuntimeError(name, UndefinedVariable(name.lexeme))) && Frames() == old(Frames())
    {
      var varName := name.lexeme;
      ghost var outer := if enclosing == null then [] else enclosing.Frames();
      assert old(Frames()) == [Frame(declared, values)] + outer;
      if varName in declared || varName in values {
        values := values[varName := value];
        assert Frames() == [Frame(declared, values)] + outer;
        return None;
      }
      StoreBeyond(Frame(declared, values), outer, varName, value);
      if enclosing != null {
        error := enclosing.Assign(name, value);
        assert Frames() == [Frame(declared, values)] + enclosing.Frames();
        return;
      }
      return Some(RuntimeError(name, UndefinedVariable(varName)));
    }
  }

  /** Defining one more parameter binds its name to its argument over the earlier bindings. */
  lemma ParamsStep(params: seq<Token>, arguments: seq<Value>, i: nat)
    requires i < |params| <= |arguments|
    ensures ParamBindings(params[..i + 1], arguments) == ParamBindings(params[..i], arguments)[params[i].lexeme := arguments[i]]
  {
    assert params[..i + 1][..i] == params[..i];
  }

  /** The names the parameters declare. */
  function ParamNames(params: seq<Token>): set<string> {
    set p | p in params :: p.lexeme
  }

  /** The map `define` builds for the parameters, one after the other: a repeated name keeps its last argument. */
  function ParamBindings(params: seq<Token>, arguments: seq<Value>): map<string, Value>
    requires |params| <= |arguments|
  {
    if params == [] then map[]
    else
      var last := |params| - 1;
      ParamBindings(params[..last], arguments)[params[last].lexeme := arguments[last]]
  }

  /** Every parameter gets a binding, and nothing else does. */
  lemma {:induction false} BindingKeys(params: seq<Token>, arguments: seq<Value>)
    requires |params| <= |arguments|
    ensures ParamBindings(params, arguments).Keys == ParamNames(params)
    decreases |params|
  {
    if params != [] {
      var last := |params| - 1;
      BindingKeys(params[..last], arguments);
      assert params == params[..last] + [params[last]];
      assert forall x :: x in ParamNames(params) <==> x in ParamNames(params[..last]) || x == params[last].lexeme;
    }
  }

  /** Parameter `i` is bound to argument `i`, unless a later parameter has the same name. */
  lemma {:induction false} ParameterBound(params: seq<Token>, arguments: seq<Value>, i: nat)
    requires |params| <= |arguments| && i < |params|
    requires forall j :: i < j < |params| ==> params[j].lexeme != params[i].lexeme
    ensures params[i].lexeme in ParamBindings(params, arguments)
    ensures ParamBindings(params, arguments)[params[i].lexeme] == arguments[i]
    decreases |params|
  {
    var last := |params| - 1;
    if i < last {
      ParameterBound(params[..last], arguments, i);
    }
  }

  /**
   * What `get` finds for a parameter inside a call: its argument, or, when the argument
   * is nil, whatever the closure's chain binds under that name.
   */
  lemma ParameterLookup(params: seq<Token>, arguments: seq<Value>, i: nat, outer: seq<Frame>)
    requires |params| <= |arguments| && i < |params|
    requires forall j :: i < j < |params| ==> params[j].lexeme != params[i].lexeme
    ensures var frames := [Frame(ParamNames(params), ParamBindings(params, arguments))] + outer;
            Lookup(frames, params[i].lexeme) == if arguments[i] != NilV then Some(arguments[i]) else Lookup(outer, params[i].lexeme)
  {
    ParameterBound(params, arguments, i);
    var frames := [Frame(ParamNames(params), ParamBindings(params, arguments))] + outer;
    assert frames[1..] == outer;
  }

  /** How executing a function body ended: it ran to its end, executed `return`, or raised. */
  datatype Completion = Normal | Returned(value: Value) | Raised(error: RuntimeError)

  /** What a call yields for its body's completion: `return`'s value, nil, or the error passed on. */
  function CallResult(c: Completion): (r: Result<Value, RuntimeError>)
    ensures r.Failure? <==> c.Raised?
    ensures c.Normal? ==> r == Success(NilV)
    ensures c.Returned? ==> r == Success(c.value)
    ensures c.Raised? ==> r.error == c.error
  {
    match c
    case Normal => Success(NilV)
    case Returned(v) => Success(v)
    case Raised(e) => Failure(e)
  }

  /** A user function: its name, parameters and body, and the environment it closes over. */
  class LoxFunction {
    const name: string
    const params: seq<Token>
    const body: seq<Stmt>
    const closure: Environment

    /** A function declared with `fun name(...) { ... }`. */
    constructor FromDeclaration(declaration: Stmt, closure: Environment)
      requires declaration.Function?
      ensures name == declaration.name.lexeme && params == declaration.params && body == declaration.body
      ensures this.closure == closure
    {
      name := declaration.name.lexeme;
      params := declaration.params;
      body := declaration.body;
      this.closure := closure;
    }

    /** A function written as an expression; it is named "anonymous". */
    constructor FromExpression(declaration: Expr, closure: Environment)
      requires declaration.AnonymousFunction?
      ensures name == "anonymous" && params == declaration.params && body == declaration.body
      ensures this.closure == closure
    {
      name := "anonymous";
      params := declaration.params;
      body := declaration.body;
      this.closure := closure;
    }

    function Arity(): nat {
      |params|
    }

    /** `toString`: the function's name between "<fn " and ">". */
    function ToString(): (text: string)
      ensures |text| == |name| + 5 && text[..4] == "<fn " && text[4..|text| - 1] == name && text[|text| - 1] == '>'
    {
      "<fn " + name + ">"
    }

    /**
     * `call`: a fresh environment enclosed by the closure (not by the caller's environment)
     * gets the parameters defined in order, and binding them leaves the closure's chain
     * as it was. Running the body is the `execute` oracle, which sees the body and the
     * fresh chain and writes to no environment.
     */
    method Call(arguments: seq<Value>, execute: (seq<Stmt>, seq<Frame>) -> Completion)
      returns (result: Result<Value, RuntimeError>, environment: Environment)
      requires closure.Valid()
      requires Arity() <= |arguments|
      ensures fresh(environment) && environment.Valid() && environment.enclosing == closure
      ensures environment.Frames() == [Frame(ParamNames(params), ParamBindings(params, arguments))] + closure.Frames()
      ensures closure.Frames() == old(closure.Frames())
      ensures result == CallResult(execute(body, environment.Frames()))
    {
      ghost var chain := closure.Frames();
      environment := new Environment(closure);
      var i := 0;
      assert params[..0] == [] && ParamBindings(params[..0], arguments).Keys == {};
      while i < |params|
        invariant 0 <= i <= |params|
        invariant fresh(environment) && environment.Valid() && environment.enclosing == closure
        invariant environment.Repr == {environment} + closure.Repr
        invariant var bound := ParamBindings(params[..i], arguments);
          environment.Frames() == [Frame(bound.Keys, bound)] + chain
        invariant closure.Frames() == chain
      {
        ghost var bound := ParamBindings(params[..i], arguments);
        environment.Define(params[i].lexeme, arguments[i]);
        DropFirst(Frame(bound.Keys, bound), chain);
        ParamsStep(params, arguments, i);
        assert bound[params[i].lexeme := arguments[i]].Keys == bound.Keys + {params[i].lexeme};
        i := i + 1;
      }
      assert params[..i] == params;
      BindingKeys(params, arguments);
      var completion := execute(body, environment.Frames());
      result := CallResult(completion);
    }
  }
}
