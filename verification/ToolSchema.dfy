/**
 Declared tool parameters and the arguments offered for them: which are required, which are
 missing, and how a value is coerced to its declared type.
 */
module ToolSchema {
  import opened Wrappers

  /** A JavaScript value as it travels in JSON; numbers are finite. */
  datatype Value =
    | Undefined
    | Null
    | Bool(b: bool)
    | Num(n: real)
    | Text(s: string)
    | List(items: seq<Value>)
    | Record(fields: seq<Field>)

  datatype Field = Field(name: string, value: Value)

  type Args = map<string, Value>

  /** `value === undefined || value === null` */
  predicate Absent(v: Value) {
    v.Undefined? || v.Null?
  }

  /** The property of a record, `Undefined` where there is none. */
  function Property(args: Args, name: string): Value {
    if name in args then args[name] else Undefined
  }

  /** JavaScript's own conversions: `String(v)`, and the finite number written by a non-blank text. */
  datatype Js = Js(toText: Value -> string, toNumber: string -> Option<real>)

  // ---- declarations ----

  /** A declared parameter: shorthand text, a full object, or anything else. */
  datatype Spec =
    | Shorthand(text: string)
    | Full(kind: Option<string>, allowed: Option<seq<Value>>, required: Option<bool>, optional: Option<bool>)
    | Malformed

  datatype Param = Param(name: string, spec: Spec)

  type Params = ps: seq<Param> | forall i, j :: 0 <= i < j < |ps| ==> ps[i].name != ps[j].name witness []

  datatype Schema = Schema(kind: Option<string>, allowed: Option<seq<Value>>)

  datatype Normal = Normal(schema: Schema, required: bool)

  predicate IsSpace(c: char) { c == ' ' || '\t' <= c <= '\r' }

  function TrimRight(s: string): string {
    if s != "" && IsSpace(s[|s| - 1]) then TrimRight(s[..|s| - 1]) else s
  }

  function Trim(s: string): string {
    if s != "" && IsSpace(s[0]) then Trim(s[1..]) else TrimRight(s)
  }

  predicate Marked(kind: string) { kind != "" && kind[|kind| - 1] == '?' }

  /** A trailing `?` marks an optional parameter. */
  function StripOptionalMarker(kind: string): string {
    if Marked(kind) then Trim(kind[..|kind| - 1]) else kind
  }

  function NormalizeParam(spec: Spec): Normal {
    match spec
    case Shorthand(text) => Normal(Schema(Some(StripOptionalMarker(text)), None), !Marked(text))
    case Full(kind, allowed, required, optional) =>
      Normal(Schema(if kind.Some? then Some(StripOptionalMarker(kind.value)) else None, allowed),
             required != Some(false) && optional != Some(true) && !(kind.Some? && Marked(kind.value)))
    case Malformed => Normal(Schema(Some("string"), None), true)
  }

  /** Nothing but spaces. */
  predicate Blank(s: string) {
    forall i :: 0 <= i < |s| ==> IsSpace(s[i])
  }

  /** Empty, or with something else than a space at either end. */
  predicate Tight(s: string) {
    s != "" ==> !IsSpace(s[0]) && !IsSpace(s[|s| - 1])
  }

  /** Trimming takes the spaces off both ends, and nothing else. */
  lemma {:induction false} Trims(left: string, s: string, right: string)
    requires Blank(left) && Tight(s) && Blank(right)
    ensures Trim(left + s + right) == s
    decreases |left|
  {
    if left != "" {
      assert (left + s + right)[1..] == left[1..] + s + right;
      Trims(left[1..], s, right);
    } else {
      assert left + s + right == s + right;
      if s == "" {
        assert s + right == right;
        AllBlank(right);
      } else {
        TrimsRight(s, right);
      }
    }
  }

  lemma {:induction false} TrimsRight(s: string, right: string)
    requires s != "" && !IsSpace(s[|s| - 1]) && Blank(right)
    ensures TrimRight(s + right) == s
    decreases |right|
  {
    if right == "" {
      assert s + right == s;
    } else {
      assert (s + right)[..|s + right| - 1] == s + right[..|right| - 1];
      TrimsRight(s, right[..|right| - 1]);
    }
  }

  lemma {:induction false} AllBlank(s: string)
    requires Blank(s)
    ensures Trim(s) == ""
  {
    if s != "" {
      AllBlank(s[1..]);
    }
  }

  /** A full declaration of kind `kind`, with its marks. */
  function Declared(kind: string, required: Option<bool>, optional: Option<bool>): Spec {
    Full(Some(kind), None, required, optional)
  }

  /**
   The ways to declare a parameter are interchangeable: a kind alone is required, in either form; it is optional
   with a mark behind it, in either form, with `optional: true`, and with `required: false`, and by nothing else.
   */
  lemma FormsAgree(kind: string, space: string, required: Option<bool>, optional: Option<bool>)
    requires Tight(kind) && !Marked(kind) && Blank(space)
    ensures var schema, marked := Schema(Some(kind), None), kind + space + "?";
            && NormalizeParam(Shorthand(kind)) == Normal(schema, true)
            && NormalizeParam(Shorthand(marked)) == NormalizeParam(Declared(marked, required, optional)) == Normal(schema, false)
            && NormalizeParam(Declared(kind, required, optional)).schema == schema
            && (NormalizeParam(Declared(kind, required, optional)).required <==> !(required == Some(false) || optional == Some(true)))
  {
    hide Trim;
    var marked := kind + space + "?";
    assert marked[..|marked| - 1] == "" + kind + space;
    Trims("", kind, space);
  }

  // ---- missing arguments ----

  function RequiredParamNames(params: Params): (names: seq<string>)
    ensures forall name :: name in names <==> exists p <- params :: p.name == name && NormalizeParam(p.spec).required
  {
    if params == [] then []
    else
      var rest, p := RequiredParamNames(params[..|params| - 1]), params[|params| - 1];
      if NormalizeParam(p.spec).required then rest + [p.name] else rest
  }

  function AbsentIn(names: seq<string>, args: Args): (missing: seq<string>)
    ensures forall name :: name in missing <==> name in names && Absent(Property(args, name))
  {
    if names == [] then []
    else
      var rest, name := AbsentIn(names[..|names| - 1], args), names[|names| - 1];
      if Absent(Property(args, name)) then rest + [name] else rest
  }

  /** The required parameters without a value. */
  function FindMissingRequiredArgs(params: Params, args: Args): (missing: seq<string>)
    ensures forall name :: name in missing <==> name in RequiredParamNames(params) && Absent(Property(args, name))
  {
    AbsentIn(RequiredParamNames(params), args)
  }

  // ---- coercion ----

  datatype CoercionError = MustBe(key: string, kind: string) | OneOf(key: string, allowed: seq<Value>)

  datatype Coercion = Coercion(args: Args, errors: seq<CoercionError>)

  predicate IsInteger(n: real) { n == n.Floor as real }

  predicate Is(n: real, k: int) { n == k as real }

  lemma WholeNumbers(n: real)
    ensures IsInteger(n) <==> exists k :: Is(n, k)
  {
    assert IsInteger(n) ==> Is(n, n.Floor);
  }

  /** `includes`: an object is never the one listed. */
  predicate Listed(allowed: seq<Value>, v: Value) {
    (v.Bool? || v.Num? || v.Text?) && v in allowed
  }

  function CoerceToKind(js: Js, key: string, kind: string, v: Value): Result<Value, CoercionError> {
    if kind == "number" || kind == "integer" then
      var n :- if v.Num? then Ok(v.n)
               else if v.Text? && js.toNumber(v.s).Some? then Ok(js.toNumber(v.s).value)
               else Err(MustBe(key, kind));
      if kind == "integer" && !IsInteger(n) then Err(MustBe(key, "integer")) else Ok(Num(n))
    else if kind == "boolean" then
      if v.Bool? then Ok(v)
      else if v == Text("true") then Ok(Bool(true))
      else if v == Text("false") then Ok(Bool(false))
      else Err(MustBe(key, kind))
    else if kind == "string" then Ok(if v.Text? then v else Text(js.toText(v)))
    else if kind == "array" then (if v.List? then Ok(v) else Err(MustBe(key, kind)))
    else if kind == "object" then (if v.Record? then Ok(v) else Err(MustBe(key, kind)))
    else Ok(v)
  }

  /** One present value against its declaration. */
  function CoerceValue(js: Js, p: Param, v: Value): Result<Value, CoercionError> {
    var schema := NormalizeParam(p.spec).schema;
    var w :- if schema.kind.Some? then CoerceToKind(js, p.name, schema.kind.value, v) else Ok(v);
    if schema.allowed.Some? && schema.allowed.value != [] && !Listed(schema.allowed.value, w)
    then Err(OneOf(p.name, schema.allowed.value))
    else Ok(w)
  }

  /** The effect of the first `k` declarations. */
  function CoercedBy(js: Js, params: Params, args: Args, k: nat): Coercion
    requires k <= |params|
  {
    if k == 0 then Coercion(args, [])
    else
      var c, p := CoercedBy(js, params, args, k - 1), params[k - 1];
      var v := Property(c.args, p.name);
      if Absent(v) then c
      else
        match CoerceValue(js, p, v)
        case Ok(w) => c.(args := c.args[p.name := w])
        case Err(e) => c.(errors := c.errors + [e])
  }

  function Coerced(js: Js, params: Params, args: Args): Coercion {
    CoercedBy(js, params, args, |params|)
  }

  method CoerceArgs(js: Js, params: Params, args: Args) returns (c: Coercion)
    ensures c == Coerced(js, params, args)
  {
    var out, errors := args, [];
    for k := 0 to |params|
      invariant Coercion(out, errors) == CoercedBy(js, params, args, k)
    {
      var p := params[k];
      if p.name !in out {
        continue;
      }
      var value := out[p.name];
      if Absent(value) {
        continue;
      }
      match CoerceValue(js, p, value)
      case Ok(w) => out := out[p.name := w];
      case Err(e) => errors := errors + [e];
    }
    c := Coercion(out, errors);
  }

  /** What becomes of the argument named by declaration `i`. */
  function CoercedArg(js: Js, p: Param, v: Value): Value {
    if Absent(v) then v else match CoerceValue(js, p, v) case Ok(w) => w case Err(_) => v
  }

  predicate Rejected(js: Js, p: Param, v: Value) {
    !Absent(v) && CoerceValue(js, p, v).Err?
  }

  lemma {:induction false} CoercedArgs(js: Js, params: Params, args: Args, k: nat)
    requires k <= |params|
    ensures var c := CoercedBy(js, params, args, k);
            && c.args.Keys == args.Keys
            && (forall i :: 0 <= i < k ==> Property(c.args, params[i].name) == CoercedArg(js, params[i], Property(args, params[i].name)))
            && (forall i :: k <= i < |params| ==> Property(c.args, params[i].name) == Property(args, params[i].name))
            && (forall name <- args :: (forall i :: 0 <= i < k ==> params[i].name != name) ==> c.args[name] == args[name])
  {
    hide CoerceValue;
    if k > 0 {
      CoercedArgs(js, params, args, k - 1);
    }
  }

  lemma {:induction false} CoercedErrors(js: Js, params: Params, args: Args, k: nat)
    requires k <= |params|
    ensures CoercedBy(js, params, args, k).errors == [] <==>
              forall i :: 0 <= i < k ==> !Rejected(js, params[i], Property(args, params[i].name))
  {
    hide CoerceValue;
    if k > 0 {
      CoercedErrors(js, params, args, k - 1);
      CoercedArgs(js, params, args, k - 1);
    }
  }

  /** No argument appears or vanishes; each declared one is coerced on its own, the others stay as they are. */
  lemma CoercedPointwise(js: Js, params: Params, args: Args)
    ensures var c := Coerced(js, params, args);
            && c.args.Keys == args.Keys
            && (forall i :: 0 <= i < |params| ==> Property(c.args, params[i].name) == CoercedArg(js, params[i], Property(args, params[i].name)))
            && (forall name <- args :: (forall i :: 0 <= i < |params| ==> params[i].name != name) ==> c.args[name] == args[name])
            && (c.errors == [] <==> forall i :: 0 <= i < |params| ==> !Rejected(js, params[i], Property(args, params[i].name)))
  {
    hide CoercedBy, CoercedArg, Rejected;
    CoercedArgs(js, params, args, |params|);
    CoercedErrors(js, params, args, |params|);
  }

  /** An accepted value is accepted again, unchanged. */
  lemma CoerceValueStable(js: Js, p: Param, v: Value)
    requires !Absent(v) && CoerceValue(js, p, v).Ok?
    ensures var w := CoerceValue(js, p, v).value; !Absent(w) && CoerceValue(js, p, w) == Ok(w)
  {
  }

  lemma CoercedArgStable(js: Js, p: Param, v: Value)
    ensures CoercedArg(js, p, CoercedArg(js, p, v)) == CoercedArg(js, p, v)
    ensures Absent(CoercedArg(js, p, v)) == Absent(v)
    ensures Rejected(js, p, CoercedArg(js, p, v)) == Rejected(js, p, v)
  {
    if !Absent(v) && CoerceValue(js, p, v).Ok? {
      CoerceValueStable(js, p, v);
    }
  }

  /** Coercing twice is coercing once. */
  lemma CoercionIdempotent(js: Js, params: Params, args: Args)
    ensures Coerced(js, params, Coerced(js, params, args).args).args == Coerced(js, params, args).args
    ensures Coerced(js, params, Coerced(js, params, args).args).errors == [] <==> Coerced(js, params, args).errors == []
  {
    hide CoercedArg, Rejected, CoercedBy;
    var once := Coerced(js, params, args);
    var twice := Coerced(js, params, once.args);
    CoercedPointwise(js, params, args);
    CoercedPointwise(js, params, once.args);
    forall i | 0 <= i < |params|
      ensures Property(twice.args, params[i].name) == Property(once.args, params[i].name)
      ensures Rejected(js, params[i], Property(once.args, params[i].name)) == Rejected(js, params[i], Property(args, params[i].name))
    {
      CoercedArgStable(js, params[i], Property(args, params[i].name));
    }
    forall name | name in args
      ensures twice.args[name] == once.args[name]
    {
      if i :| 0 <= i < |params| && params[i].name == name {
        assert Property(twice.args, name) == Property(once.args, name);
      }
    }
  }

  /** Coercion neither supplies nor loses a required argument. */
  lemma CoercionKeepsMissing(js: Js, params: Params, args: Args, name: string)
    ensures Absent(Property(Coerced(js, params, args).args, name)) == Absent(Property(args, name))
  {
    hide CoercedArg, CoercedBy;
    CoercedPointwise(js, params, args);
    if i :| 0 <= i < |params| && params[i].name == name {
      CoercedArgStable(js, params[i], Property(args, name));
    }
  }

  /** An argument coerced on its own comes out the same among others. */
  lemma CoercedAmongOthers(js: Js, params: Params, args: Args, name: string)
    requires name in args
    ensures Coerced(js, params, args).args.Keys == args.Keys
    ensures Coerced(js, params, map[name := args[name]]).args == map[name := Coerced(js, params, args).args[name]]
  {
    hide CoercedArg, CoercedBy;
    var one := map[name := args[name]];
    CoercedPointwise(js, params, args);
    CoercedPointwise(js, params, one);
    if i :| 0 <= i < |params| && params[i].name == name {
      assert Property(Coerced(js, params, args).args, name) == Property(Coerced(js, params, one).args, name);
    }
  }

  /** An answer accepted on its own reaches the tool unchanged among any other arguments. */
  lemma AcceptedAnswerUnchanged(js: Js, params: Params, name: string, answer: Value, args: Args)
    requires name in args && args[name] == Property(Coerced(js, params, map[name := answer]).args, name)
    ensures name in Coerced(js, params, args).args && Coerced(js, params, args).args[name] == args[name]
  {
    hide CoercedBy;
    var one := map[name := answer];
    CoercedPointwise(js, params, one);
    CoercedAmongOthers(js, params, args, name);
    CoercionIdempotent(js, params, one);
    assert Coerced(js, params, one).args == map[name := args[name]];
  }

  // ---- what an accepted value is ----

  /** `v` is of the declared kind; an unknown kind admits everything. */
  predicate OfKind(kind: string, v: Value) {
    if kind == "number" then v.Num?
    else if kind == "integer" then v.Num? && IsInteger(v.n)
    else if kind == "boolean" then v.Bool?
    else if kind == "string" then v.Text?
    else if kind == "array" then v.List?
    else if kind == "object" then v.Record?
    else true
  }

  /** A value fits a declaration: it is of its kind and, where values are enumerated, one of them. */
  predicate Fits(p: Param, v: Value) {
    var schema := NormalizeParam(p.spec).schema;
    && (schema.kind.Some? ==> OfKind(schema.kind.value, v))
    && (schema.allowed.Some? && schema.allowed.value != [] ==> Listed(schema.allowed.value, v))
  }

  /** The only conversions: numbers and truth values written as text, and anything else to text. */
  predicate Converts(js: Js, v: Value, w: Value) {
    if v.Text? then
      || (w.Num? && js.toNumber(v.s) == Some(w.n))
      || (v.s == "true" && w == Bool(true)) || (v.s == "false" && w == Bool(false))
    else w == Text(js.toText(v))
  }

  /** Exactly the fitting values are the outcome of coercion, each of itself and of what converts to it and is not of the kind. */
  lemma AcceptedIff(js: Js, p: Param, v: Value, w: Value)
    ensures var kind := NormalizeParam(p.spec).schema.kind;
            CoerceValue(js, p, v) == Ok(w) <==>
              Fits(p, w) && (w == v || (kind.Some? && !OfKind(kind.value, v) && Converts(js, v, w)))
  {
  }

  /** What coercion accepts fits its declaration, and what fits is accepted as it is. */
  lemma AcceptedFits(js: Js, p: Param, v: Value)
    ensures CoerceValue(js, p, v).Ok? ==> Fits(p, CoerceValue(js, p, v).value)
    ensures Fits(p, v) ==> CoerceValue(js, p, v) == Ok(v)
  {
    hide CoerceValue, Fits;
    AcceptedIff(js, p, v, v);
    if CoerceValue(js, p, v).Ok? {
      AcceptedIff(js, p, v, CoerceValue(js, p, v).value);
    }
  }

  /** Each declared argument that is present fits its declaration. */
  predicate ArgsFit(params: Params, args: Args) {
    forall k :: 0 <= k < |params| && !Absent(Property(args, params[k].name)) ==> Fits(params[k], Property(args, params[k].name))
  }

  lemma CoercedFits(js: Js, p: Param, v: Value)
    requires !Absent(v)
    ensures Fits(p, CoercedArg(js, p, v)) <==> !Rejected(js, p, v)
  {
    AcceptedFits(js, p, v);
  }

  /** Coerced arguments fit their declarations if and only if none was rejected; what was rejected stays, and does not fit. */
  lemma CoercedFitIff(js: Js, params: Params, args: Args)
    ensures ArgsFit(params, Coerced(js, params, args).args) <==> Coerced(js, params, args).errors == []
  {
    hide CoercedArg, Rejected, CoercedBy, Fits;
    CoercedPointwise(js, params, args);
    forall k | 0 <= k < |params|
      ensures var v := Property(args, params[k].name);
              && Absent(CoercedArg(js, params[k], v)) == Absent(v)
              && (Absent(v) ==> !Rejected(js, params[k], v))
              && (!Absent(v) ==> (Fits(params[k], CoercedArg(js, params[k], v)) <==> !Rejected(js, params[k], v)))
    {
      var v := Property(args, params[k].name);
      CoercedArgStable(js, params[k], v);
      AbsentAccepted(js, params[k], v);
      if !Absent(v) {
        CoercedFits(js, params[k], v);
      }
    }
  }

  lemma AbsentAccepted(js: Js, p: Param, v: Value)
    ensures Absent(v) ==> !Rejected(js, p, v)
  {
  }
}
