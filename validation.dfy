/**
 * Aggregating validation of an entity's property values against a schema's
 * merged properties: every property is checked, and all errors are reported
 * together.
 */
module Validation {
  import opened SchemaTypes

  /** A property's own validator. It belongs to the property component and is
      given to this core as a function. */
  type Validator = (Property, seq<string>) -> Option<string>

  /** The message of the error for a required property without values. */
  const RequiredMessage: string := "Required"

  /** The values given for `name`; an absent name has none. */
  function ValuesOf(data: map<string, seq<string>>, name: string): seq<string> {
    if name in data then data[name] else []
  }

  /** The error of one property: its validator's, or `Required` when the
      validator found nothing, no value was given and the property is required. */
  function PropertyError(p: Property, values: seq<string>, required: seq<string>, check: Validator): (e: Option<string>)
    ensures check(p, values).Some? ==> e == check(p, values)
    ensures check(p, values).None? ==> (e.Some? <==> |values| == 0 && p.name in required)
    ensures e.Some? && check(p, values).None? ==> e.value == RequiredMessage
  {
    var e := check(p, values);
    if e.None? && |values| == 0 && p.name in required then Some(RequiredMessage) else e
  }

  /** The error map of a whole entity: one entry per merged property that has
      an error. */
  function Errors(props: map<string, Property>, required: seq<string>, data: map<string, seq<string>>, check: Validator): (errs: map<string, string>)
    ensures errs.Keys <= props.Keys
    ensures forall n | n in props :: n in errs <==> PropertyError(props[n], ValuesOf(data, n), required, check).Some?
    ensures forall n | n in errs :: errs[n] == PropertyError(props[n], ValuesOf(data, n), required, check).value
  {
    map n | n in props && PropertyError(props[n], ValuesOf(data, n), required, check).Some?
      :: PropertyError(props[n], ValuesOf(data, n), required, check).value
  }

  /** The validation loop over the merged properties. */
  method CollectErrors(props: map<string, Property>, required: seq<string>, data: map<string, seq<string>>, check: Validator)
    returns (errs: map<string, string>)
    ensures errs == Errors(props, required, data, check)
  {
    errs := map[];
    var todo := props.Keys;
    while todo != {}
      invariant todo <= props.Keys
      invariant errs == Errors(props - todo, required, data, check)
      decreases todo
    {
      var n :| n in todo;
      var values := ValuesOf(data, n);
      var error := check(props[n], values);
      if error.None? && |values| == 0 {
        if props[n].name in required {
          error := Some(RequiredMessage);
        }
      }
      assert error == PropertyError(props[n], values, required, check);
      ErrorsStep(props, todo, n, required, data, check);
      if error.Some? {
        errs := errs[n := error.value];
      }
      todo := todo - {n};
    }
    assert props - todo == props;
  }

  /** Checking one more property adds its error, if any, to the map so far. */
  lemma ErrorsStep(props: map<string, Property>, todo: set<string>, n: string, required: seq<string>, data: map<string, seq<string>>, check: Validator)
    requires n in todo && todo <= props.Keys
    ensures var e := PropertyError(props[n], ValuesOf(data, n), required, check);
      Errors(props - (todo - {n}), required, data, check) ==
        if e.Some? then Errors(props - todo, required, data, check)[n := e.value] else Errors(props - todo, required, data, check)
  {
  }

  /** Input keys that are not property names play no part in validation. */
  lemma UnknownKeysIgnored(props: map<string, Property>, required: seq<string>, data: map<string, seq<string>>, check: Validator)
    ensures Errors(props, required, data, check) == Errors(props, required, data - (data.Keys - props.Keys), check)
  {
    var data' := data - (data.Keys - props.Keys);
    forall n | n in props ensures ValuesOf(data, n) == ValuesOf(data', n) {
    }
  }

  /** Errors are kept apart per property: two invalid properties give two entries. */
  lemma TwoInvalidTwoEntries(props: map<string, Property>, required: seq<string>, data: map<string, seq<string>>, check: Validator, a: string, b: string)
    requires a in props && b in props && a != b
    requires check(props[a], ValuesOf(data, a)).Some? && check(props[b], ValuesOf(data, b)).Some?
    requires forall n | n in props && n != a && n != b :: PropertyError(props[n], ValuesOf(data, n), required, check).None?
    ensures Errors(props, required, data, check).Keys == {a, b}
    ensures Errors(props, required, data, check)[a] == check(props[a], ValuesOf(data, a)).value
  {
  }

  /** A required `name` property left empty, with a validator that accepts: the
      error map is exactly `{"name": "Required"}`. */
  lemma RequiredNameScenario(p: Property, check: Validator)
    requires p.name == "name"
    requires check(p, []).None?
    ensures Errors(map["name" := p], ["name"], map[], check) == map["name" := RequiredMessage]
  {
    assert PropertyError(p, ValuesOf(map[], "name"), ["name"], check) == Some(RequiredMessage);
  }
}
