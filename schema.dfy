/** Compiling a schema's property list into property descriptors and
    validation records. The type registry that maps a declared property type
    to a type tag is a parameter: its table is not part of this model. */
module Schemas {
  import opened Wrappers

  /** How a property refers to other objects. */
  datatype Reference =
    | NotReference
    | SingleReference(target: string)
    /** A to-many collection; `identifiable` is false for embedded objects
        without identity. */
    | CollectionReference(target: string, identifiable: bool)

  datatype SchemaProperty = SchemaProperty(
    name: string,
    collectionName: string,
    isCollection: bool,
    propertyType: string,
    owner: bool,
    persisted: bool,
    required: bool,
    min: Option<int>,
    max: Option<int>,
    constants: Option<seq<string>>,
    reference: Reference)

  datatype Schema = Schema(name: string, plural: string, metadata: bool, properties: seq<SchemaProperty>)

  /** A type-registry entry: the validation type tag and whether fields of
      this type get a setter (computed read-only fields do not). */
  datatype TypeInfo = TypeInfo(tag: string, writable: bool)

  /** A property descriptor: a getter always, a setter only when writable. */
  datatype Descriptor = Descriptor(field: string, hasSetter: bool)

  datatype Validation = Validation(
    typeTag: string,
    owner: bool,
    persisted: bool,
    required: bool,
    min: Option<int>,
    max: Option<int>,
    constants: Option<seq<string>>,
    referenceType: Option<string>)

  /** `modelProperties` and `modelValidations`, keyed alike. */
  datatype Compiled = Compiled(properties: map<string, Descriptor>, validations: map<string, Validation>)

  /** To-many properties are keyed by their collection name. */
  function PropertyKey(p: SchemaProperty): string
  {
    if p.isCollection then p.collectionName else p.name
  }

  /** The referenced type, for single references and for collections of
      identifiable references only. */
  function ReferenceType(r: Reference): Option<string>
  {
    match r
    case NotReference => None
    case SingleReference(t) => Some(t)
    case CollectionReference(t, identifiable) => if identifiable then Some(t) else None
  }

  function DescriptorOf(p: SchemaProperty, t: TypeInfo): Descriptor
  {
    Descriptor(PropertyKey(p), t.writable)
  }

  function ValidationOf(p: SchemaProperty, t: TypeInfo): Validation
  {
    Validation(t.tag, p.owner, p.persisted, p.required, p.min, p.max, p.constants, ReferenceType(p.reference))
  }

  function TypeNotFound(propertyType: string): string
  {
    "Type from schema \"" + propertyType + "\" not found available type list."
  }

  /** Compiles the properties in order; a later property with the same key
      replaces an earlier one, and the first unknown type throws. Both tables
      get the same keys, each descriptor is filed under its own field name,
      and an error names the type of one of the properties. */
  function Compile(props: seq<SchemaProperty>, types: map<string, TypeInfo>): (r: Result<Compiled>)
    ensures r.Success? ==> r.value.validations.Keys == r.value.properties.Keys
    ensures r.Success? ==> forall k :: k in r.value.properties ==> r.value.properties[k].field == k
    ensures r.Failure? ==> exists i :: 0 <= i < |props| && r.error == TypeNotFound(props[i].propertyType)
    decreases |props|
  {
    if props == [] then Success(Compiled(map[], map[]))
    else
      var last := props[|props| - 1];
      match Compile(props[..|props| - 1], types)
      case Failure(e) => Failure(e)
      case Success(c) =>
        if last.propertyType !in types then Failure(TypeNotFound(last.propertyType))
        else
          var t := types[last.propertyType];
          var k := PropertyKey(last);
          Success(Compiled(c.properties[k := DescriptorOf(last, t)], c.validations[k := ValidationOf(last, t)]))
  }

  /** Compilation fails exactly when some property's type is unknown, and the
      error names the first such type. */
  lemma {:induction false} CompileFailsOnUnknownType(props: seq<SchemaProperty>, types: map<string, TypeInfo>)
    ensures Compile(props, types).Failure? <==> exists i :: 0 <= i < |props| && props[i].propertyType !in types
    ensures Compile(props, types).Failure? ==>
      exists i :: 0 <= i < |props| && props[i].propertyType !in types &&
        Compile(props, types).error == TypeNotFound(props[i].propertyType) &&
        forall j :: 0 <= j < i ==> props[j].propertyType in types
    decreases |props|
  {
    if props != [] {
      var n := |props| - 1;
      var init := props[..n];
      CompileFailsOnUnknownType(init, types);
      assert forall i :: 0 <= i < n ==> init[i] == props[i];
      if Compile(init, types).Failure? {
        var i :| 0 <= i < n && init[i].propertyType !in types &&
          Compile(init, types).error == TypeNotFound(init[i].propertyType) &&
          forall j :: 0 <= j < i ==> init[j].propertyType in types;
        assert props[i].propertyType !in types;
      } else if props[n].propertyType !in types {
        assert forall j :: 0 <= j < n ==> props[j].propertyType in types;
      }
    }
  }

  /** One descriptor and one validation record per distinct key, and both
      tables have the same keys: every owner-marked validation key has a
      descriptor. */
  lemma {:induction false} CompiledKeys(props: seq<SchemaProperty>, types: map<string, TypeInfo>)
    requires Compile(props, types).Success?
    ensures Compile(props, types).value.properties.Keys == set i | 0 <= i < |props| :: PropertyKey(props[i])
    ensures Compile(props, types).value.validations.Keys == Compile(props, types).value.properties.Keys
    decreases |props|
  {
    if props != [] {
      var n := |props| - 1;
      var init := props[..n];
      CompiledKeys(init, types);
      assert forall i :: 0 <= i < n ==> init[i] == props[i];
      assert (set i | 0 <= i < |props| :: PropertyKey(props[i])) ==
        (set i | 0 <= i < n :: PropertyKey(init[i])) + {PropertyKey(props[n])};
    }
  }

  /** The entries under a property's key come from that property, unless a
      later property shares its key: the setter exists exactly for writable
      types, and the validation copies the type tag, ownership, persistence,
      requiredness, bounds, constants and reference type. */
  lemma {:induction false} CompiledEntry(props: seq<SchemaProperty>, types: map<string, TypeInfo>, i: nat)
    requires Compile(props, types).Success?
    requires i < |props|
    requires forall j :: i < j < |props| ==> PropertyKey(props[j]) != PropertyKey(props[i])
    ensures props[i].propertyType in types
    ensures PropertyKey(props[i]) in Compile(props, types).value.properties
    ensures PropertyKey(props[i]) in Compile(props, types).value.validations
    ensures Compile(props, types).value.properties[PropertyKey(props[i])] ==
      Descriptor(PropertyKey(props[i]), types[props[i].propertyType].writable)
    ensures Compile(props, types).value.validations[PropertyKey(props[i])] ==
      ValidationOf(props[i], types[props[i].propertyType])
    decreases |props|
  {
    var n := |props| - 1;
    var init := props[..n];
    if i < n {
      assert init[i] == props[i];
      assert forall j :: i < j < n ==> init[j] == props[j];
      CompiledEntry(init, types, i);
    }
  }

  /** `getOwnedPropertyNames`: the keys whose validation record is owner-marked. */
  function OwnedNames(validations: map<string, Validation>): set<string>
  {
    set k | k in validations && validations[k].owner
  }

  /** For a schema whose properties have distinct keys, the owned names of
      the compiled definition are exactly the keys of the owner-marked
      properties, and each of them has a descriptor. */
  lemma CompiledOwnedNames(props: seq<SchemaProperty>, types: map<string, TypeInfo>)
    requires Compile(props, types).Success?
    requires forall i, j :: 0 <= i < j < |props| ==> PropertyKey(props[i]) != PropertyKey(props[j])
    ensures forall k :: k in OwnedNames(Compile(props, types).value.validations) <==>
      exists i :: 0 <= i < |props| && PropertyKey(props[i]) == k && props[i].owner
    ensures OwnedNames(Compile(props, types).value.validations) <= Compile(props, types).value.properties.Keys
  {
    var c := Compile(props, types).value;
    CompiledKeys(props, types);
    forall i | 0 <= i < |props|
      ensures PropertyKey(props[i]) in c.validations
      ensures c.validations[PropertyKey(props[i])].owner == props[i].owner
    {
      CompiledEntry(props, types, i);
    }
    forall k | k in OwnedNames(c.validations)
      ensures exists i :: 0 <= i < |props| && PropertyKey(props[i]) == k && props[i].owner
    {
      assert k in set i | 0 <= i < |props| :: PropertyKey(props[i]);
      var i :| 0 <= i < |props| && PropertyKey(props[i]) == k;
      assert props[i].owner;
    }
  }
}
