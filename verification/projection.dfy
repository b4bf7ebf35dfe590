/**
  The `include` and `exclude` shortcuts: a model's dump projected onto, or
  away from, a list of field names.
 */
module Projection {
  import opened Values
  import Restful

  /** `include(model, fields)`: the dump restricted to the named fields. */
  function Include(model: Instance, includeFields: seq<string>): (d: map<string, Value>)
    ensures forall k :: k in d <==> k in model.fields && k in includeFields
    ensures forall k :: k in d ==> d[k] == model.fields[k]
  {
    map k | k in model.fields && k in includeFields :: model.fields[k]
  }

  /** `exclude(model, fields)`: the dump without the named fields. */
  function Exclude(model: Instance, excludeFields: seq<string>): (d: map<string, Value>)
    ensures forall k :: k in d <==> k in model.fields && k !in excludeFields
    ensures forall k :: k in d ==> d[k] == model.fields[k]
  {
    map k | k in model.fields && k !in excludeFields :: model.fields[k]
  }

  /** The two projections split the dump: disjoint, and together all of it. */
  lemma IncludeExcludeSplitDump(model: Instance, fields: seq<string>)
    ensures Include(model, fields).Keys !! Exclude(model, fields).Keys
    ensures DictV(Include(model, fields) + Exclude(model, fields)) == Dump(model)
  {
  }

  /** A projected dump is a plain dict, which the wrapper returns unchanged. */
  lemma ProjectionPassesThrough(model: Instance, fields: seq<string>)
    ensures Restful.Serialized(DictV(Include(model, fields))) == Returned(DictV(Include(model, fields)))
    ensures Restful.Serialized(DictV(Exclude(model, fields))) == Returned(DictV(Exclude(model, fields)))
  {
  }

  /** `Person(name='xx', age=12, height=50.1)` with `['name', 'height']`. */
  lemma IncludeExample(height: Value)
    ensures var person := Instance("Person", map["name" := StrV("xx"), "age" := IntV(12), "height" := height]);
      Include(person, ["name", "height"]) == map["name" := StrV("xx"), "height" := height]
  {
  }

  /** `Dog(name='puppy', age=12, weight=12.44)` without `['age']`. */
  lemma ExcludeExample(weight: Value)
    ensures var dog := Instance("Dog", map["name" := StrV("puppy"), "age" := IntV(12), "weight" := weight]);
      Exclude(dog, ["age"]) == map["name" := StrV("puppy"), "weight" := weight]
  {
  }
}
