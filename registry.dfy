/** The model-definition registry of src/model/ModelDefinitions.js: one object
    whose own members are the `add` method and one empty entry per added
    model name. */
module Registry {
  import opened Wrappers

  /** A value stored on the registry object: the `add` function the
      constructor installs, or the `{}` that `add` stores (its own keys). */
  datatype Member = AddFunction | Entry(keys: set<string>)

  /** The members every object inherits from `Object.prototype`, all of which
      are truthy; the registry's `constructor` also comes from its prototype. */
  const InheritedMembers: set<string> := {
    "constructor", "toString", "toLocaleString", "valueOf", "hasOwnProperty",
    "isPrototypeOf", "propertyIsEnumerable", "__proto__", "__defineGetter__",
    "__defineSetter__", "__lookupGetter__", "__lookupSetter__"
  }

  /** The own members of a newly constructed registry. */
  const Initial: map<string, Member> := map["add" := AddFunction]

  /** `this[name]` is truthy: every stored member and every inherited one is. */
  predicate Taken(own: map<string, Member>, name: string)
  {
    name in own || name in InheritedMembers
  }

  function AlreadyExists(name: string): string
  {
    "Model " + name + " already exists"
  }

  /** What `add(name)` does to the own members: throw when the name is taken,
      otherwise store an empty object under it. */
  function Added(own: map<string, Member>, name: string): Result<map<string, Member>>
  {
    if Taken(own, name) then Failure(AlreadyExists(name))
    else Success(own[name := Entry({})])
  }

  /** A free name gets an entry, and that entry is an empty object. */
  lemma AddCreatesEmptyEntry(own: map<string, Member>, name: string)
    requires !Taken(own, name)
    ensures Added(own, name).Success?
    ensures name in Added(own, name).value && Added(own, name).value[name] == Entry({})
  {
  }

  /** A taken name is refused with "Model <name> already exists". */
  lemma AddRejectsTaken(own: map<string, Member>, name: string)
    requires Taken(own, name)
    ensures Added(own, name) == Failure("Model " + name + " already exists")
  {
  }

  /** A successful add touches only the entry for `name`: every other member,
      `add` included, keeps its value and no member disappears. */
  lemma AddChangesOnlyName(own: map<string, Member>, name: string)
    requires Added(own, name).Success?
    ensures Added(own, name).value.Keys == own.Keys + {name}
    ensures forall k :: k in own ==> Added(own, name).value[k] == own[k]
  {
  }

  /** Adding the same name twice always fails the second time. */
  lemma AddTwiceFails(own: map<string, Member>, name: string)
    requires Added(own, name).Success?
    ensures Added(Added(own, name).value, name).Failure?
  {
  }

  /** A fresh registry refuses the names it already carries: its own `add`
      and the inherited members. */
  lemma FreshRegistryRefusesOwnMembers(name: string)
    requires name == "add" || name in InheritedMembers
    ensures Added(Initial, name) == Failure(AlreadyExists(name))
  {
  }

  /** A run of `add` calls, stopping at the first one that throws. */
  function AddedAll(own: map<string, Member>, names: seq<string>): Result<map<string, Member>>
    decreases |names|
  {
    if names == [] then Success(own)
    else
      match Added(own, names[0])
      case Failure(e) => Failure(e)
      case Success(next) => AddedAll(next, names[1..])
  }

  /** Registering a list of names on a registry succeeds exactly when the
      names are pairwise distinct and none is taken beforehand; the registry
      then holds one entry for each name on top of what it had. */
  lemma {:induction false} AddedAllSucceeds(own: map<string, Member>, names: seq<string>)
    ensures AddedAll(own, names).Success? <==>
      (forall i :: 0 <= i < |names| ==> !Taken(own, names[i])) &&
      (forall i, j :: 0 <= i < j < |names| ==> names[i] != names[j])
    ensures AddedAll(own, names).Success? ==>
      AddedAll(own, names).value.Keys == own.Keys + set i | 0 <= i < |names| :: names[i]
    decreases |names|
  {
    if names != [] {
      var rest := names[1..];
      if !Taken(own, names[0]) {
        var next := own[names[0] := Entry({})];
        AddedAllSucceeds(next, rest);
        assert forall i :: 0 <= i < |rest| ==> (Taken(next, rest[i]) <==> Taken(own, rest[i]) || rest[i] == names[0]);
        assert (set i | 0 <= i < |names| :: names[i]) == {names[0]} + set i | 0 <= i < |rest| :: rest[i];
      }
    }
  }

  class ModelDefinitions {
    /** The registry object's own members, by property name. */
    var members: map<string, Member>

    /** The `add` member installed by the constructor is never replaced. */
    ghost predicate Valid()
      reads this
    {
      "add" in members && members["add"] == AddFunction
    }

    constructor ()
      ensures Valid()
      ensures members == Initial
    {
      members := Initial;
    }

    /** `add(name)`: a failed call leaves the registry as it was, because the
        membership check precedes the assignment. */
    method Add(name: string) returns (r: Outcome)
      requires Valid()
      modifies this
      ensures Valid()
      ensures r.Fail? <==> old(Taken(members, name))
      ensures r.Fail? ==> r.error == AlreadyExists(name) && members == old(members)
      ensures r.Pass? ==> members == old(members)[name := Entry({})]
      ensures Added(old(members), name) == if r.Pass? then Success(members) else Failure(r.error)
    {
      if Taken(members, name) {
        return Fail(AlreadyExists(name));
      }
      members := members[name := Entry({})];
      r := Pass;
    }
  }
}
