/** A model instance as the property descriptors and the definition's `save`
    and `delete` see it: its current field values, the properties set on the
    object itself, and its change-tracking state, updated in place by the
    setters. */
module Models {
  import opened JsValues

  /** Whether a setter call counts as a change: `!==`, so a distinct object
      is a change even when its contents match the stored one. */
  predicate Changes(stored: JsValue, incoming: JsValue)
  {
    incoming != stored
  }

  /** A field's value in `dataValues`, `undefined` when absent. */
  function Lookup(values: map<string, JsValue>, field: string): JsValue
  {
    if field in values then values[field] else Undefined
  }

  class Model {
    /** `dataValues`: field name to current value. */
    var dataValues: map<string, JsValue>
    /** The properties set directly on the instance (`model.id`,
        `model.href`), which need not agree with `dataValues`. */
    var ownProperties: map<string, JsValue>
    /** True once any setter has changed a field. */
    var dirty: bool
    /** `DIRTY_PROPERTY_LIST`: the fields some setter has changed. */
    var dirtyProperties: set<string>

    constructor ()
      ensures dataValues == map[] && ownProperties == map[] && !dirty && dirtyProperties == {}
    {
      dataValues := map[];
      ownProperties := map[];
      dirty := false;
      dirtyProperties := {};
    }

    /** The descriptor's getter: the stored value, `undefined` when absent. */
    function Get(field: string): (r: JsValue)
      reads this
      ensures field in dataValues ==> r == dataValues[field]
      ensures field !in dataValues ==> r == Undefined
    {
      Lookup(dataValues, field)
    }

    /** `model[name]` for a property set on the instance itself. */
    function Own(name: string): (r: JsValue)
      reads this
      ensures name in ownProperties ==> r == ownProperties[name]
      ensures name !in ownProperties ==> r == Undefined
    {
      Lookup(ownProperties, name)
    }

    /** The descriptor's setter for `field`. The value is stored whatever it
        is (falsy values, `null` and `undefined` included); the model becomes
        dirty and records the field only when the value differs from the
        stored one, and a dirty model never becomes clean again. */
    method Set(field: string, value: JsValue)
      modifies this
      ensures dataValues == old(dataValues)[field := value] && ownProperties == old(ownProperties)
      ensures Get(field) == value
      ensures dirty == (old(dirty) || Changes(old(Get(field)), value))
      ensures dirtyProperties ==
        if Changes(old(Get(field)), value) then old(dirtyProperties) + {field} else old(dirtyProperties)
    {
      if Changes(Get(field), value) {
        dirty := true;
        dirtyProperties := dirtyProperties + {field};
      }
      dataValues := dataValues[field := value];
    }
  }

  /** The setter on a clean model whose `field` holds `stored`: it reports a
      change, marks the model dirty and records the field exactly when
      `incoming !== stored`, and the getter then reads `incoming`. */
  method SetOnCleanModel(field: string, stored: JsValue, incoming: JsValue)
    returns (dirty: bool, recorded: bool, after: JsValue)
    ensures dirty <==> incoming != stored
    ensures recorded <==> incoming != stored
    ensures after == incoming
  {
    var m := new Model();
    m.dataValues := map[field := stored];
    m.Set(field, incoming);
    dirty, recorded, after := m.dirty, field in m.dirtyProperties, m.Get(field);
  }
}
