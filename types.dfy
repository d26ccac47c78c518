/**
 * Values shared by every part of the schema model: optional values, the
 * typed form of a schema definition, the property record, and the errors the
 * engine raises.
 */
module SchemaTypes {

  /** A schema is identified by its position in the model's arena. */
  type Id = nat

  datatype Option<T> = None | Some(value: T) {
    /** The value, or `default` when there is none (a `dict.get` with a default). */
    function GetOr(default: T): T {
      match this
      case Some(v) => v
      case None => default
    }
  }

  /** The errors of the engine. `InvalidExtends` and `EntityInvalid` are raised
      as `InvalidData`, all the others as `InvalidModel`. */
  datatype SchemaError =
    | InvalidExtends(name: string)
    | MissingFeatured(name: string)
    | MissingCaption(name: string)
    | MissingRequired(name: string)
    | MissingEdgeSource(name: string)
    | MissingEdgeTarget(name: string)
    | UnnamedReverse
    | EntityInvalid(errors: map<string, string>)
  {
    predicate IsInvalidData() {
      InvalidExtends? || EntityInvalid?
    }
  }

  /** The outcome of an operation that either completes or raises. */
  datatype Outcome = Pass | Fail(error: SchemaError)

  /** The outcome of an operation that returns a value or raises. */
  datatype Result<T> = Success(value: T) | Failure(error: SchemaError)

  /** The part of a property definition this core reads or writes. The rest of
      a property's definition belongs to the property component. */
  datatype PropertySpec = PropertySpec(
    labelText: Option<string>,
    typeName: Option<string>,
    reverse: Option<string>,
    range: Option<string>,
    hidden: bool)

  /** A property as the schemata hold it: the schema that declared it, its
      name, its definition and whether it was synthesized as a reverse stub.
      Two schemata that share a property hold the same record. */
  datatype Property = Property(owner: Id, name: string, spec: PropertySpec, stub: bool)

  /** The `reverse` section of a relation, asking for an inverse property. */
  datatype ReverseSpec = ReverseSpec(name: Option<string>, labelText: Option<string>, hidden: Option<bool>)

  /** The `edge` section of a schema definition; an absent section is all `None`. */
  datatype EdgeSpec = EdgeSpec(
    source: Option<string>,
    target: Option<string>,
    caption: seq<string>,
    labelText: Option<string>,
    directed: Option<bool>)

  /** A schema definition as read from the model files, already typed. An
      absent key is `None` (or the empty list / map). */
  datatype SchemaSpec = SchemaSpec(
    labelText: Option<string>,
    plural: Option<string>,
    description: Option<string>,
    extendsNames: seq<string>,
    properties: map<string, PropertySpec>,
    featured: seq<string>,
    required: seq<string>,
    caption: seq<string>,
    edge: EdgeSpec,
    isAbstract: Option<bool>,
    hidden: Option<bool>,
    generated: Option<bool>,
    matchable: Option<bool>)

  /** The fields of a schema that construction fixes and nothing later changes. */
  datatype SchemaDef = SchemaDef(
    name: string,
    labelText: string,
    plural: string,
    description: Option<string>,
    isAbstract: bool,
    hidden: bool,
    generated: bool,
    matchable: bool,
    featured: seq<string>,
    required: seq<string>,
    caption: seq<string>,
    edgeSource: Option<string>,
    edgeTarget: Option<string>,
    edge: bool,
    edgeCaption: seq<string>,
    edgeLabel: string,
    edgeDirected: bool,
    extendsNames: seq<string>)

  /** The type name of entity references (the entity type of the type registry). */
  const EntityTypeName: string := "entity"

  /** The flags and defaults that construction derives from a definition.
      Display texts go through localisation at read time; it is the identity here,
      so the default plural is the label itself. */
  function Define(name: string, spec: SchemaSpec): (d: SchemaDef)
    ensures d.name == name && d.extendsNames == spec.extendsNames
    ensures d.labelText == spec.labelText.GetOr(name) && d.plural == spec.plural.GetOr(d.labelText)
    ensures d.description == spec.description
    ensures d.isAbstract == spec.isAbstract.GetOr(false)
    ensures d.hidden ==> !d.isAbstract
    ensures d.hidden <==> spec.hidden == Some(true) && spec.isAbstract != Some(true)
    ensures d.generated == spec.generated.GetOr(false) && d.matchable == spec.matchable.GetOr(true)
    ensures d.edge <==> spec.edge.source.Some? && spec.edge.target.Some?
    ensures d.edge <==> d.edgeSource.Some? && d.edgeTarget.Some?
    ensures d.edgeSource == spec.edge.source && d.edgeTarget == spec.edge.target && d.edgeCaption == spec.edge.caption
    ensures d.edgeLabel == spec.edge.labelText.GetOr(d.labelText) && d.edgeDirected == spec.edge.directed.GetOr(true)
    ensures d.featured == spec.featured && d.required == spec.required && d.caption == spec.caption
  {
    var labelText := spec.labelText.GetOr(name);
    var isAbstract := spec.isAbstract.GetOr(false);
    var hidden := spec.hidden.GetOr(false) && !isAbstract;
    SchemaDef(
      name, labelText, spec.plural.GetOr(labelText), spec.description,
      isAbstract, hidden, spec.generated.GetOr(false), spec.matchable.GetOr(true),
      spec.featured, spec.required, spec.caption,
      spec.edge.source, spec.edge.target, spec.edge.source.Some? && spec.edge.target.Some?,
      spec.edge.caption, spec.edge.labelText.GetOr(labelText), spec.edge.directed.GetOr(true),
      spec.extendsNames)
  }

  /** Construction's loop over the locally declared properties: each becomes a
      property owned by the new schema under its own name. */
  method BuildProperties(owner: Id, specs: map<string, PropertySpec>) returns (m: map<string, Property>)
    ensures m.Keys == specs.Keys
    ensures forall n | n in m :: m[n] == Property(owner, n, specs[n], false)
  {
    m := map[];
    var todo := specs.Keys;
    while todo != {}
      invariant todo <= specs.Keys
      invariant m.Keys == specs.Keys - todo
      invariant forall n | n in m :: m[n] == Property(owner, n, specs[n], false)
      decreases todo
    {
      var n :| n in todo;
      m := m[n := Property(owner, n, specs[n], false)];
      todo := todo - {n};
    }
  }
}
