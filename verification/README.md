# flask-frest marshaling, modelled in Dafny

flask-frest is a Flask extension whose `restful` decorator marshals a view
function's input and output through pydantic models:

- **Body type.** When the view is decorated, `restful` looks at the first entry
  of the view's `__annotations__`. If that entry's type is a `BaseModel`
  subclass, it becomes the body type.
- **Decoding.** With a body type, each call builds a model from the request's
  JSON body. A validation error answers `(errors, 400)` and the view is not
  called. Otherwise the view is called with the model before its own arguments.
  Without a body type, the view gets its arguments unchanged.
- **Encoding.** The view's return value is normalised one level deep:
  - a model becomes its `model_dump()`;
  - in a tuple, a model at position 0 becomes its dump;
  - in a tuple, a list at position 0, or in a bare list, every model element is
    replaced by its dump at the same index;
  - every other value passes through unchanged.
- **Projection.** `include` and `exclude` are shortcuts for `model_dump` with a
  field projection.

The repository holds two copies of the decorator: `frest/core.py` and `frest.py`.
Their selection, validation and normalisation branches are the same. The only
difference is that `frest/core.py` first binds the annotation list to a local
name. One model covers both, and the rows below cite whichever copy states a
property most directly.

Files:

- `values.dfy` (module `Values`): the values a view returns, model instances,
  `Dump` (that is `model_dump()`), and `Outcome` (a value, or the `IndexError`
  raised on an empty tuple).
- `restful.dfy` (module `Restful`):
  - `BodyType` chooses the body type.
  - `Serialized` is the reference definition of the encoding step.
  - `SerializeItems` and `Normalize` are the imperative encoding step, proved
    equal to `Serialized`.
  - `Response` is the reference definition of one call, and `Wrapped` is the
    wrapped view, proved equal to it.
- `projection.dfy` (module `Projection`): `Include` and `Exclude`.

Pydantic validation and the view function are function-typed parameters. The
JSON payload is a parameter.

A return-type annotation is not skipped. Both copies take the type of the first
`__annotations__` entry whatever its key. So a view whose first or only
annotation is a model-typed `return` also gets a body type (`FirstAnnotationOnly`).

## Model

| member | source | states |
|---|---|---|
| `Restful.BodyType` | frest/core.py:34-39 | A body type exists exactly when there is at least one annotation and the first one's type is a model class; it is then that class. |
| `Restful.FirstAnnotationOnly` | frest.py:18-22 | Annotations after the first never matter, and the first entry's key (including `return`) is never looked at. |
| `Restful.SerializeItems` | frest/core.py:61-71 | The copy-and-overwrite loop returns a list of the same length in which each model element is replaced by its dump at the same index and every other element is unchanged. |
| `Restful.Normalize` | frest/core.py:52-73 | The imperative encoding step, branch by branch, produces exactly the reference normalisation `Serialized` of the view's return value. |
| `Restful.ModelReturnDumped` | frest.py:35-36 | A bare model return value becomes exactly its field mapping. |
| `Restful.TupleWithModelHead` | frest/core.py:56-59 | For a tuple with a model at position 0, the result is a tuple of the same length. Element 0 is the dump and elements 1.. (the status code, ...) are identical and in order. |
| `Restful.TupleWithListHead` | frest.py:39-48 | For a tuple with a list at position 0, the tuple keeps its length and its tail. Its head is rewritten exactly as a bare list would be. |
| `Restful.ListReturn` | frest/core.py:66-72 | A bare list keeps its length. Each model at index i becomes its dump at index i, and every non-model element (nested lists included) is unchanged. |
| `Restful.OtherShapesUnchanged` | frest.py:35-56 | Every other value is returned unchanged: dicts, atoms, and tuples whose head is neither a model nor a list. |
| `Restful.FailsOnlyOnEmptyTuple` | frest/core.py:56-57 | Normalisation fails (the `IndexError` of reading element 0) if and only if the value is the empty tuple. |
| `Restful.SerializedIdempotent` | frest/core.py:52-73 | Normalising an already-normalised value changes nothing. |
| `Restful.Wrapped` | frest.py:24-56 | One call of the wrapped view returns exactly the reference response `Response`. |
| `Restful.ValidationFailureShortCircuits` | frest/core.py:43-47 | When validation fails, the answer is `(errors, 400)` with the error records as given, whatever the view function is. So the view is not called. |
| `Restful.ModelPrepended` | frest/core.py:43-48 | When validation succeeds, the view is called with the validated model as its first argument, then the original positional arguments in order, then the original keywords. Its normalised result is the answer. |
| `Restful.ArgumentsUnchanged` | frest.py:26-33 | Without a body type, the payload and the validator play no part, and the view gets exactly the original arguments. |
| `Restful.EchoRoundTrip` | test.py:23-38 | Posting a valid body to a view that returns its model answers the posted fields unchanged, for a model that keeps the fields it is given. |
| `Projection.Include` | frest/core.py:125-136 | The result holds exactly the model's fields that are named, with their values unchanged. |
| `Projection.Exclude` | frest/core.py:139-150 | The result holds exactly the model's fields that are not named, with their values unchanged. |
| `Projection.IncludeExcludeSplitDump` | frest/core.py:125-150 | `include` and `exclude` with the same names have disjoint keys, and together they make up the whole dump. |
| `Projection.ProjectionPassesThrough` | test.py:46-55 | A projected dump returned by a view passes through the wrapper unchanged. |
| `Projection.IncludeExample` | test.py:40-55 | `Person(name='xx', age=12, height=h)` with `['name', 'height']` gives `{name: 'xx', height: h}`. |
| `Projection.ExcludeExample` | test.py:57-71 | `Dog(name='puppy', age=12, weight=w)` without `['age']` gives `{name: 'puppy', weight: w}`. |

## Left out

- The Flask request context and the parsing of `request.json`. The payload is a parameter, a mapping from strings to values. A request without a JSON body makes `request.json` raise Flask's HTTP error. A JSON body that is not an object makes `**` raise `TypeError`. Neither is modelled.
- Pydantic. Validation is an arbitrary function returning a model or a list of error records, and how the error records are built is not modelled.
- `Dump`: it is shallow. `model_dump()` also converts models nested inside fields; here field values are kept as they are.
- Dict key order (Python dicts and pydantic dumps are ordered; Dafny maps are not).
- `Projection.Include` and `Projection.Exclude`: names that are not fields of the model are ignored. How pydantic treats them is not modelled.
- Exceptions raised by the view function, and the `TypeError` that `issubclass` raises on a non-class annotation such as `t.List[int]`. Annotations are modelled as already-resolved types, and view functions as total functions.
- A view whose first annotation is a model-typed `return` (no parameter is annotated) is still called with the model first. For a view with no parameters, such as `def list_users() -> User`, that call raises `TypeError` in Python, and on a request without a JSON body `request.json` fails before it. With total view functions, the model returns the view's result for that call instead.
- Python subclassing: a `tuple` subclass (a named tuple) or a `list` subclass is modelled as a plain tuple or list.
- `functools.wraps` metadata.
- Decoration time versus call time: `Wrapped` takes the body type that `restful` computed once, via `BodyType`, as a parameter.
- The `Swagger` class (frest/core.py:77-122) and the unused module-level list `_meta_endpoint_func_types` (frest/core.py:21). They only record route metadata and print it, and are not used by the marshaling path.
- Float field values in the tests (50.1, 12.44) are opaque values.
