/**
  The `restful` decorator: it picks a body type from the handler's first
  annotation, validates the request payload into that model (answering
  `(errors, 400)` when validation fails), calls the handler, and rewrites the
  models in the handler's return value into their dumps.

  Flask's request object and pydantic's validator are not modelled: the JSON
  payload is a parameter, and validation is a function-typed parameter.
 */
module Restful {
  import opened Values

  // ---------------------------------------------------------------------------
  // Decoration time: choosing the body type
  // ---------------------------------------------------------------------------

  /** A resolved type annotation: a BaseModel subclass, or any other type. */
  datatype TypeRef = ModelClass(schema: SchemaName) | OtherType(name: string)

  /** One entry of `func.__annotations__`, in declaration order (the key of a
      return annotation is "return"). */
  datatype Annotation = Annotation(key: string, annotated: TypeRef)

  /**
    The body type `restful` captures: the type of the FIRST annotation entry,
    whatever its key, if that type is a model class; otherwise none.
   */
  function BodyType(annotations: seq<Annotation>): (t: Option<SchemaName>)
    ensures t.Some? <==> |annotations| > 0 && annotations[0].annotated.ModelClass?
    ensures t.Some? ==> t.value == annotations[0].annotated.schema
  {
    if |annotations| == 0 then None
    else match annotations[0].annotated
      case ModelClass(schema) => Some(schema)
      case OtherType(_) => None
  }

  /** Only the first entry decides; its key is never looked at, so a handler
      whose first (or only) annotation is a model-typed `return` gets a body
      type too. */
  lemma FirstAnnotationOnly(first: Annotation, rest: seq<Annotation>, key: string)
    ensures BodyType([first] + rest) == BodyType([first])
    ensures BodyType([Annotation(key, first.annotated)] + rest) == BodyType([first] + rest)
  {
  }

  // ---------------------------------------------------------------------------
  // Return-value normalisation
  // ---------------------------------------------------------------------------

  /** Every element of a list with its top-level models replaced by their dumps. */
  function DumpModels(items: seq<Value>): seq<Value>
  {
    seq(|items|, i requires 0 <= i < |items| => DumpIfModel(items[i]))
  }

  /**
    Reference definition of the encoding step: what the wrapper makes of the
    handler's return value `resp`.
   */
  function Serialized(resp: Value): Outcome
  {
    match resp
    case ModelV(inst) => Returned(Dump(inst))
    case TupleV(elems) =>
      if |elems| == 0 then IndexError
      else if elems[0].ModelV? then Returned(TupleV([Dump(elems[0].instance)] + elems[1..]))
      else if elems[0].ListV? then Returned(TupleV([ListV(DumpModels(elems[0].items))] + elems[1..]))
      else Returned(resp)
    case ListV(items) => Returned(ListV(DumpModels(items)))
    case _ => Returned(resp)
  }

  /**
    The list loop of both list branches: copy the list, then overwrite each
    position that holds a model with that model's dump.
   */
  method SerializeItems(items: seq<Value>) returns (newItems: seq<Value>)
    ensures |newItems| == |items|
    ensures forall i :: 0 <= i < |items| && items[i].ModelV? ==> newItems[i] == Dump(items[i].instance)
    ensures forall i :: 0 <= i < |items| && !items[i].ModelV? ==> newItems[i] == items[i]
  {
    newItems := items;
    var idx := 0;
    while idx < |items|
      invariant 0 <= idx <= |items| == |newItems|
      invariant forall i :: 0 <= i < idx ==> newItems[i] == DumpIfModel(items[i])
      invariant forall i :: idx <= i < |items| ==> newItems[i] == items[i]
    {
      if items[idx].ModelV? {
        newItems := newItems[idx := Dump(newItems[idx].instance)];
      }
      idx := idx + 1;
    }
  }

  /** The encoding step, branch by branch as the wrapper runs it. */
  method Normalize(resp: Value) returns (out: Outcome)
    ensures out == Serialized(resp)
  {
    if resp.ModelV? {
      out := Returned(Dump(resp.instance));
    } else if resp.TupleV? {
      if |resp.elems| == 0 {
        // `resp_obj[0]` on an empty tuple
        return IndexError;
      }
      var first := resp.elems[0];
      if first.ModelV? {
        out := Returned(TupleV([Dump(first.instance)] + resp.elems[1..]));
      } else if first.ListV? {
        var newFirst := SerializeItems(first.items);
        assert newFirst == DumpModels(first.items);
        out := Returned(TupleV([ListV(newFirst)] + resp.elems[1..]));
      } else {
        out := Returned(resp);
      }
    } else if resp.ListV? {
      var newResp := SerializeItems(resp.items);
      assert newResp == DumpModels(resp.items);
      out := Returned(ListV(newResp));
    } else {
      out := Returned(resp);
    }
  }

  /** A bare model becomes exactly its field mapping. */
  lemma ModelReturnDumped(inst: Instance)
    ensures Serialized(ModelV(inst)) == Returned(DictV(inst.fields))
  {
  }

  /** `(model, status, ...)`: element 0 becomes the dump, the tail (the status
      code, headers) is kept in order, and the length is unchanged. */
  lemma TupleWithModelHead(elems: seq<Value>)
    requires |elems| > 0 && elems[0].ModelV?
    ensures Serialized(TupleV(elems)).Returned?
    ensures var r := Serialized(TupleV(elems)).value;
      && r.TupleV? && |r.elems| == |elems|
      && r.elems[0] == DictV(elems[0].instance.fields)
      && r.elems[1..] == elems[1..]
  {
  }

  /** A bare list keeps its length; each model is dumped at its own index and
      every other element (a dict, a nested list, ...) is left as it is. */
  lemma ListReturn(items: seq<Value>)
    ensures Serialized(ListV(items)).Returned?
    ensures var r := Serialized(ListV(items)).value;
      && r.ListV? && |r.items| == |items|
      && (forall i :: 0 <= i < |items| && items[i].ModelV? ==> r.items[i] == DictV(items[i].instance.fields))
      && (forall i :: 0 <= i < |items| && !items[i].ModelV? ==> r.items[i] == items[i])
  {
  }

  /** `([models], status, ...)`: the head list is rewritten as a bare list is,
      and the tail and the tuple's length are preserved. */
  lemma TupleWithListHead(elems: seq<Value>)
    requires |elems| > 0 && elems[0].ListV?
    ensures Serialized(TupleV(elems)).Returned?
    ensures var r := Serialized(TupleV(elems)).value;
      && r.TupleV? && |r.elems| == |elems|
      && r.elems[0] == ListV(DumpModels(elems[0].items))
      && r.elems[1..] == elems[1..]
    ensures Serialized(TupleV(elems)).value.elems[0] == Serialized(elems[0]).value
  {
  }

  /** Every other shape is handed back untouched: dicts, strings, numbers,
      None, and tuples whose head is neither a model nor a list (so a model
      at a later tuple position stays a model). */
  lemma OtherShapesUnchanged(v: Value)
    requires !v.ModelV? && !v.ListV?
    requires v.TupleV? ==> |v.elems| > 0 && !v.elems[0].ModelV? && !v.elems[0].ListV?
    ensures Serialized(v) == Returned(v)
  {
  }

  /** The only failure of the encoding step is the empty tuple. */
  lemma FailsOnlyOnEmptyTuple(v: Value)
    ensures Serialized(v).IndexError? <==> v == TupleV([])
  {
  }

  /** Normalising a normalised value changes nothing: dumps are plain
      mappings, and the rewrite is one level deep. */
  lemma SerializedIdempotent(v: Value)
    requires Serialized(v).Returned?
    ensures Serialized(Serialized(v).value) == Serialized(v)
  {
    match v
    case ListV(items) =>
      DumpModelsIdempotent(items);
    case TupleV(elems) =>
      var r := Serialized(v).value;
      if elems[0].ModelV? {
        assert r.elems[0].DictV?;
      } else if elems[0].ListV? {
        DumpModelsIdempotent(elems[0].items);
        assert r.elems[1..] == elems[1..];
      }
    case _ =>
  }

  lemma DumpModelsIdempotent(items: seq<Value>)
    ensures DumpModels(DumpModels(items)) == DumpModels(items)
  {
  }

  // ---------------------------------------------------------------------------
  // Call time: the wrapped view function
  // ---------------------------------------------------------------------------

  /** Constructing the body model from the payload: a model, or the error records. */
  datatype Validation = Validated(instance: Instance) | Invalid(errors: seq<Value>)

  /**
    Constructing a model of the named class from the JSON payload. Nothing
    here forces a `Validated` instance to be of the class asked for, as a
    model class's constructor always is; no lemma relies on either.
   */
  type Validator = (SchemaName, map<string, Value>) -> Validation

  /** A view function of positional and keyword arguments. */
  type Handler = (seq<Value>, map<string, Value>) -> Value

  /** `(e.errors(), 400)`. */
  function ErrorResponse(errors: seq<Value>): Value
  {
    TupleV([ListV(errors), IntV(400)])
  }

  /**
    Reference definition of one call of the wrapped view: `bodyType` is what
    `restful` captured, `payload` the request's JSON body.
   */
  function Response(func: Handler, bodyType: Option<SchemaName>, validate: Validator,
                    payload: map<string, Value>, args: seq<Value>, kwargs: map<string, Value>): Outcome
  {
    match bodyType
    case None => Serialized(func(args, kwargs))
    case Some(schema) =>
      match validate(schema, payload)
      case Invalid(errors) => Returned(ErrorResponse(errors))
      case Validated(model) => Serialized(func([ModelV(model)] + args, kwargs))
  }

  /**
    The `wrapped` closure. Its contract is `Response`: the lemmas about
    `Response` below (ValidationFailureShortCircuits, ModelPrepended,
    ArgumentsUnchanged, EchoRoundTrip) are what it promises its callers.
   */
  method Wrapped(func: Handler, bodyType: Option<SchemaName>, validate: Validator,
                 payload: map<string, Value>, args: seq<Value>, kwargs: map<string, Value>)
    returns (out: Outcome)
    ensures out == Response(func, bodyType, validate, payload, args, kwargs)
  {
    var respObj: Value;
    if bodyType.Some? {
      var validation := validate(bodyType.value, payload);
      if validation.Invalid? {
        return Returned(ErrorResponse(validation.errors));
      }
      respObj := func([ModelV(validation.instance)] + args, kwargs);
    } else {
      respObj := func(args, kwargs);
    }
    out := Normalize(respObj);
  }

  /** Validation failure answers `(errors, 400)` whatever the handler is: the
      handler is not called, and the error records are not rewritten. */
  lemma ValidationFailureShortCircuits(func: Handler, other: Handler, schema: SchemaName,
                                       validate: Validator, payload: map<string, Value>,
                                       args: seq<Value>, kwargs: map<string, Value>)
    requires validate(schema, payload).Invalid?
    ensures Response(func, Some(schema), validate, payload, args, kwargs)
         == Response(other, Some(schema), validate, payload, args, kwargs)
         == Returned(TupleV([ListV(validate(schema, payload).errors), IntV(400)]))
  {
  }

  /** On success the handler sees the validated model first, then the
      original positional arguments in order, and the original keywords. */
  lemma ModelPrepended(func: Handler, schema: SchemaName, validate: Validator,
                       payload: map<string, Value>, args: seq<Value>, kwargs: map<string, Value>)
    requires validate(schema, payload).Validated?
    ensures var callArgs := [ModelV(validate(schema, payload).instance)] + args;
      && |callArgs| == |args| + 1
      && callArgs[1..] == args
      && Response(func, Some(schema), validate, payload, args, kwargs) == Serialized(func(callArgs, kwargs))
  {
  }

  /** Without a body type the payload is never read or validated and the
      handler gets exactly the original arguments. */
  lemma ArgumentsUnchanged(func: Handler, validate: Validator, other: Validator,
                           payload: map<string, Value>, otherPayload: map<string, Value>,
                           args: seq<Value>, kwargs: map<string, Value>)
    ensures Response(func, None, validate, payload, args, kwargs)
         == Response(func, None, other, otherPayload, args, kwargs)
         == Serialized(func(args, kwargs))
  {
  }

  /** A view `def create(person: Person): return person`. */
  function EchoFirst(args: seq<Value>, kwargs: map<string, Value>): Value
  {
    if |args| > 0 then args[0] else NoneV
  }

  /** Posting a valid body to a view that returns its model answers the posted
      fields unchanged, for a model that keeps the fields it was given. */
  lemma EchoRoundTrip(annotations: seq<Annotation>, validate: Validator,
                      payload: map<string, Value>, args: seq<Value>, kwargs: map<string, Value>)
    requires |annotations| > 0 && annotations[0].annotated.ModelClass?
    requires var v := validate(annotations[0].annotated.schema, payload);
      v.Validated? && v.instance.fields == payload
    ensures Response(EchoFirst, BodyType(annotations), validate, payload, args, kwargs)
         == Returned(DictV(payload))
  {
  }
}
