/** The model definition: the per-type object that holds the compiled
    properties and validations, builds the requests of `get`, `list`, `save`
    and `delete`, and carries the fluent filter chain. A request is returned
    as a record of the call the API gateway would receive. */
module Definitions {
  import opened Wrappers
  import opened JsValues
  import opened Text
  import opened Filters
  import opened Schemas
  import opened Models

  /** Which class the definition is an instance of. */
  datatype Variant = Generic | UserDefinition

  /** `specialClasses`: schema names whose definitions use a specialized class. */
  const SpecialClasses: map<string, Variant> := map["user" := UserDefinition]

  function VariantFor(schemaName: string): Variant
  {
    if schemaName in SpecialClasses then SpecialClasses[schemaName] else Generic
  }

  const AllFields := ":all"

  /** The `fields` parameter of a single-record `get`: the user definition
      widens it with the owned fields of the user's credentials. */
  function SingleGetFields(v: Variant): string
  {
    match v
    case Generic => AllFields
    case UserDefinition => ":all,userCredentials[:owner]"
  }

  /** Query parameters; `filter` is absent rather than empty when there are
      no clauses. */
  datatype Params = Params(fields: string, filter: Option<seq<string>>)

  /** The call handed to the API gateway. A path built from an endpoint is
      `None` when the endpoint is `undefined`. */
  datatype Request =
    | ApiGet(target: Option<string>, params: Params)
    | ApiPost(target: Option<string>, body: map<string, JsValue>)
    | ApiUpdate(location: JsValue, body: map<string, JsValue>)
    | ApiDelete(location: JsValue)

  /** The argument of `get`: nothing, one identifier, a list of them, or a
      value of any other type (a number, an object, ...). */
  datatype Identifier = NoIdentifier | One(id: string) | Many(ids: seq<string>) | Other(v: JsValue)

  const IdentifierMissing := "Identifier should be provided"
  const SchemaMissing := "Schema should be provided"

  /** The constructor's argument checks, in the order it makes them. */
  function ConstructorError(name: JsValue, plural: JsValue): Option<string>
  {
    if name.Undefined? || name == Str("") then Some("Value should be provided")
    else if !name.Str? then Some("Expected " + ToJsString(name) + " to have type string")
    else if plural.Undefined? then Some("Plural should be provided")
    else None
  }

  /** The constructor accepts exactly a non-empty string name with a plural,
      and an object name is reported as `[object Object]`. */
  lemma ConstructorChecks(name: JsValue, plural: JsValue)
    ensures ConstructorError(name, plural).None? <==> name.Str? && name.s != "" && !plural.Undefined?
    ensures name.Undefined? ==> ConstructorError(name, plural) == Some("Value should be provided")
    ensures name.Obj? ==> ConstructorError(name, plural) == Some("Expected [object Object] to have type string")
    ensures name.Str? && name.s != "" && plural.Undefined? ==>
      ConstructorError(name, plural) == Some("Plural should be provided")
  {
    if name.Obj? {
      assert "Expected " + ToJsString(name) + " to have type string" == "Expected [object Object] to have type string";
    }
  }

  /** How `[apiEndpoint, id].join('/')` renders the endpoint part. */
  function EndpointText(endpoint: Option<string>): string
  {
    match endpoint
    case None => ""
    case Some(e) => e
  }

  /** The `id:in:[id1,id2,...]` clause of a batch `get`. */
  function InClause(ids: seq<string>): Clause
  {
    Clause("id", Filters.In, "[" + Join(ids, ',') + "]")
  }

  /** The payload of `save`: exactly the owner-marked fields whose current
      value is neither `null` nor `undefined`, each with that value. */
  ghost predicate IsOwnedPayload(p: map<string, JsValue>, validations: map<string, Validation>, values: map<string, JsValue>)
  {
    && (forall k :: k in p <==> k in OwnedNames(validations) && IsSet(Lookup(values, k)))
    && (forall k :: k in p ==> p[k] == Lookup(values, k))
  }

  /** The payload is determined by the owner fields and the values. */
  lemma OwnedPayloadUnique(p: map<string, JsValue>, q: map<string, JsValue>,
                           validations: map<string, Validation>, values: map<string, JsValue>)
    requires IsOwnedPayload(p, validations, values) && IsOwnedPayload(q, validations, values)
    ensures p == q
  {
    assert p.Keys == q.Keys;
  }

  class ModelDefinition {
    const name: string
    const plural: JsValue
    const isMetaData: bool
    const apiEndpoint: Option<string>
    const modelProperties: map<string, Descriptor>
    const modelValidations: map<string, Validation>
    const variant: Variant
    /** The clauses the filter chain has added, in order. */
    var filters: seq<Clause>

    /** Sets every field once; `name` and `isMetaData`, like the other
        constants, never change afterwards. */
    constructor (name: string, plural: JsValue, isMetaData: bool, apiEndpoint: Option<string>,
                 modelProperties: map<string, Descriptor>, modelValidations: map<string, Validation>,
                 variant: Variant)
      ensures this.name == name && this.plural == plural && this.isMetaData == isMetaData
      ensures this.apiEndpoint == apiEndpoint && this.variant == variant
      ensures this.modelProperties == modelProperties && this.modelValidations == modelValidations
      ensures filters == []
    {
      this.name := name;
      this.plural := plural;
      this.isMetaData := isMetaData;
      this.apiEndpoint := apiEndpoint;
      this.modelProperties := modelProperties;
      this.modelValidations := modelValidations;
      this.variant := variant;
      this.filters := [];
    }

    /** `other` has this definition's name, plural, metadata flag, endpoint,
        properties, validations and class. */
    predicate SameDefinition(other: ModelDefinition)
    {
      && other.name == name && other.plural == plural && other.isMetaData == isMetaData
      && other.apiEndpoint == apiEndpoint && other.modelProperties == modelProperties
      && other.modelValidations == modelValidations && other.variant == variant
    }

    /** `clone()`: a new definition equal to this one, with its own copy of
        the filter list; this definition is not changed. */
    method Clone() returns (c: ModelDefinition)
      ensures fresh(c) && SameDefinition(c) && c.filters == filters
    {
      c := new ModelDefinition(name, plural, isMetaData, apiEndpoint, modelProperties, modelValidations, variant);
      c.filters := filters;
    }

    /** `filter()`: a clone whose filter list the chain extends, so that the
        clauses never reach this definition. */
    method Filter() returns (c: ModelDefinition)
      ensures fresh(c) && SameDefinition(c) && c.filters == filters
    {
      c := Clone();
    }

    /** `on(field)`: selects the field the next operator call filters on.
        The operator then extends THIS definition's filters, so callers reach
        `on` through `Filter()`, whose fresh clone takes the clause, as the
        source's `filter().on(...)` chain does. */
    method On(field: string) returns (f: FieldFilter)
      ensures fresh(f) && f.definition == this && f.field == field
    {
      f := new FieldFilter(this, field);
    }

    /** `get(identifier)`: a missing or empty identifier, or one that is
        neither a string nor a list of strings, is refused before any
        request; one identifier is fetched at `<endpoint>/<id>`, a list of
        them on the bare endpoint with one `id:in:[...]` clause. */
    function Get(identifier: Identifier): (r: Result<Request>)
      ensures r.Failure? <==> identifier.NoIdentifier? || identifier == One("") || identifier.Other?
      ensures r.Failure? ==> r.error == IdentifierMissing
      ensures identifier.One? && r.Success? ==>
        r.value == ApiGet(Some(EndpointText(apiEndpoint) + "/" + identifier.id), Params(SingleGetFields(variant), None))
      ensures identifier.Many? ==>
        r.value == ApiGet(apiEndpoint, Params(AllFields, Some([Render(InClause(identifier.ids))])))
    {
      match identifier
      case NoIdentifier => Failure(IdentifierMissing)
      case One(id) =>
        if id == "" then Failure(IdentifierMissing)
        else Success(ApiGet(Some(EndpointText(apiEndpoint) + "/" + id), Params(SingleGetFields(variant), None)))
      case Many(ids) => Success(ApiGet(apiEndpoint, Params(AllFields, Some([Render(InClause(ids))]))))
      case Other(_) => Failure(IdentifierMissing)
    }

    /** `list()`: all fields from the endpoint, with a `filter` parameter only
        when the chain has added clauses, holding them in the order added. */
    function List(): (r: Request)
      reads this
      ensures r.ApiGet? && r.target == apiEndpoint && r.params.fields == AllFields
      ensures r.params.filter.None? <==> filters == []
      ensures r.params.filter.Some? ==> r.params.filter.value == RenderAll(filters)
    {
      ApiGet(apiEndpoint, Params(AllFields, if filters == [] then None else Some(RenderAll(filters))))
    }

    /** `getOwnedPropertyNames()`: the fields this type is the owner of. */
    function GetOwnedPropertyNames(): (r: set<string>)
      ensures forall k :: k in r <==> k in modelValidations && modelValidations[k].owner
    {
      OwnedNames(modelValidations)
    }

    /** `save(model)`: a model whose own `id` property is truthy is updated
        at its own `href` property, any other is posted to the endpoint; the
        body is the owned payload, read from `dataValues`. */
    method Save(model: Model) returns (r: Request)
      ensures Truthy(model.Own("id")) ==> r.ApiUpdate? && r.location == model.Own("href")
      ensures !Truthy(model.Own("id")) ==> r.ApiPost? && r.target == apiEndpoint
      ensures (r.ApiUpdate? || r.ApiPost?) && IsOwnedPayload(r.body, modelValidations, model.dataValues)
    {
      var owned := GetOwnedPropertyNames();
      var keys := modelValidations.Keys;
      var payload: map<string, JsValue> := map[];
      while keys != {}
        invariant keys <= modelValidations.Keys
        invariant forall k :: k in payload <==> k in owned && k !in keys && IsSet(model.Get(k))
        invariant forall k :: k in payload ==> payload[k] == model.Get(k)
        decreases keys
      {
        var k :| k in keys;
        if k in owned && IsSet(model.Get(k)) {
          payload := payload[k := model.Get(k)];
        }
        keys := keys - {k};
      }
      if Truthy(model.Own("id")) {
        r := ApiUpdate(model.Own("href"), payload);
      } else {
        r := ApiPost(apiEndpoint, payload);
      }
    }

    /** `delete(model)`: removes the model at its own `href` property. */
    function Delete(model: Model): (r: Request)
      reads model
      ensures r.ApiDelete? && r.location == model.Own("href")
    {
      ApiDelete(model.Own("href"))
    }
  }

  /** The object `on(field)` returns; its operators add one clause to the
      definition it was taken from and return that definition. */
  class FieldFilter {
    const definition: ModelDefinition
    const field: string

    constructor (definition: ModelDefinition, field: string)
      ensures this.definition == definition && this.field == field
    {
      this.definition := definition;
      this.field := field;
    }

    /** `like(value)`: adds `field:like:value`. */
    method Like(value: string) returns (d: ModelDefinition)
      modifies definition
      ensures d == definition
      ensures definition.filters == old(definition.filters) + [Clause(field, Filters.Like, value)]
    {
      definition.filters := definition.filters + [Clause(field, Filters.Like, value)];
      d := definition;
    }

    /** `equals(value)`: adds `field:eq:value`. */
    method Equals(value: string) returns (d: ModelDefinition)
      modifies definition
      ensures d == definition
      ensures definition.filters == old(definition.filters) + [Clause(field, Filters.Equal, value)]
    {
      definition.filters := definition.filters + [Clause(field, Filters.Equal, value)];
      d := definition;
    }
  }

  /** `new ModelDefinition(name, plural)` (or the specialized class's
      constructor): not a metadata type, no endpoint, no properties. */
  method New(name: JsValue, plural: JsValue, variant: Variant) returns (r: Result<ModelDefinition>)
    ensures ConstructorError(name, plural).Some? ==> r == Failure(ConstructorError(name, plural).value)
    ensures ConstructorError(name, plural).None? ==>
      && r.Success? && fresh(r.value)
      && r.value.name == name.s && r.value.plural == plural && !r.value.isMetaData
      && r.value.apiEndpoint.None? && r.value.variant == variant
      && r.value.modelProperties == map[] && r.value.modelValidations == map[] && r.value.filters == []
  {
    var e := ConstructorError(name, plural);
    if e.Some? {
      return Failure(e.value);
    }
    var d := new ModelDefinition(name.s, plural, false, None, map[], map[], variant);
    r := Success(d);
  }

  /** `createFromSchema(schema)`: compiles the properties, then constructs
      the definition, with the specialized class when the schema name has
      one. Only a metadata type gets the endpoint `/<plural>`. */
  method CreateFromSchema(schema: Option<Schema>, types: map<string, TypeInfo>) returns (r: Result<ModelDefinition>)
    ensures schema.None? ==> r == Failure(SchemaMissing)
    ensures schema.Some? && Compile(schema.value.properties, types).Failure? ==>
      r == Failure(Compile(schema.value.properties, types).error)
    ensures r.Failure? <==>
      schema.None? || Compile(schema.value.properties, types).Failure? || schema.value.name == ""
    ensures r.Success? ==>
      var s := schema.value;
      var c := Compile(s.properties, types).value;
      && fresh(r.value)
      && r.value.name == s.name && r.value.plural == Str(s.plural) && r.value.isMetaData == s.metadata
      && r.value.apiEndpoint == (if s.metadata then Some("/" + s.plural) else None)
      && r.value.modelProperties == c.properties && r.value.modelValidations == c.validations
      && r.value.variant == VariantFor(s.name) && r.value.filters == []
  {
    if schema.None? {
      return Failure(SchemaMissing);
    }
    var s := schema.value;
    var compiled := Compile(s.properties, types);
    if compiled.Failure? {
      return Failure(compiled.error);
    }
    var e := ConstructorError(Str(s.name), Str(s.plural));
    if e.Some? {
      return Failure(e.value);
    }
    var endpoint := if s.metadata then Some("/" + s.plural) else None;
    var d := new ModelDefinition(s.name, Str(s.plural), s.metadata, endpoint,
                                 compiled.value.properties, compiled.value.validations, VariantFor(s.name));
    r := Success(d);
  }

  /** `base.filter().on(field).like(value).list()`: the request carries the
      base's clauses followed by the new one, and the base, which this
      method may not modify, keeps its own list untouched. */
  method FilteredList(base: ModelDefinition, field: string, value: string) returns (r: Request)
    ensures r == ApiGet(base.apiEndpoint, Params(AllFields, Some(RenderAll(base.filters + [Clause(field, Filters.Like, value)]))))
  {
    var clone := base.Filter();
    var selector := clone.On(field);
    var d := selector.Like(value);
    r := d.List();
  }

  /** A model whose `dataValues` still hold an `id` but whose own `id`
      property was deleted is new: `save` posts it to the endpoint, with the
      owned payload taken from `dataValues`. */
  method SaveAfterDeletingOwnId(d: ModelDefinition, values: map<string, JsValue>) returns (r: Request)
    ensures r.ApiPost? && r.target == d.apiEndpoint
    ensures IsOwnedPayload(r.body, d.modelValidations, values)
  {
    var m := new Model();
    m.dataValues := values;
    m.ownProperties := values - {"id"};
    r := d.Save(m);
  }

  /** A batch `get` sends a single clause that reads back as `id`, `in` and a
      bracketed list which splits back into the requested identifiers, when
      there is at least one and none holds a comma. */
  lemma GetManyRecoversIds(d: ModelDefinition, ids: seq<string>)
    requires |ids| >= 1
    requires forall i :: 0 <= i < |ids| ==> ',' !in ids[i]
    ensures d.Get(Many(ids)).Success?
    ensures var p := d.Get(Many(ids)).value.params;
      && p.filter.Some? && |p.filter.value| == 1
      && var c := Parse(p.filter.value[0]);
      && c.Some? && c.value.field == "id" && c.value.operator == Filters.In
      && var v := c.value.value;
      && |v| >= 2 && v[0] == '[' && v[|v| - 1] == ']'
      && Split(v[1..|v| - 1], ',') == ids
  {
    var c := InClause(ids);
    ParseRender(c);
    var v := c.value;
    assert v[1..|v| - 1] == Join(ids, ',');
    SplitJoin(ids, ',');
  }

  /** Every entry of a list request's `filter` reads back as the clause the
      chain added at that position. */
  lemma ListReadsBackFilters(d: ModelDefinition)
    requires d.filters != []
    requires forall i :: 0 <= i < |d.filters| ==> ':' !in d.filters[i].field && ':' !in d.filters[i].operator
    ensures d.List().params.filter.Some?
    ensures |d.List().params.filter.value| == |d.filters|
    ensures forall i :: 0 <= i < |d.filters| ==> Parse(d.List().params.filter.value[i]) == Some(d.filters[i])
  {
    ParseRenderAll(d.filters);
  }

  /** The user definition keeps `get`'s contract: the same identifier checks,
      the same target and the same batch request; only the `fields` of a
      single-record fetch are widened. */
  lemma SpecializedGetKeepsBaseContract(user: ModelDefinition, base: ModelDefinition, identifier: Identifier)
    requires user.variant == UserDefinition && base.variant == Generic
    requires user.apiEndpoint == base.apiEndpoint
    ensures user.Get(identifier).Failure? <==> base.Get(identifier).Failure?
    ensures identifier.Many? ==> user.Get(identifier) == base.Get(identifier)
    ensures identifier.One? && user.Get(identifier).Success? ==>
      && user.Get(identifier).value.target == base.Get(identifier).value.target
      && user.Get(identifier).value.params == Params(":all,userCredentials[:owner]", None)
      && base.Get(identifier).value.params == Params(AllFields, None)
  {
  }
}
