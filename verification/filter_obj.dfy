/**
 * `filterObj(obj, ...allowedFields)`: copy from `obj` only the own keys that
 * occur in `allowedFields`, values unchanged.
 */
module FilterObject {
  import opened JsValues

  /**
   * The functional form of the filter, built field by field over the
   * allow-list. Its contract is the set-theoretic meaning: the key set is the
   * intersection of the object's keys with the allow-list, and every kept key
   * carries the object's own value.
   */
  function Filtered(obj: map<string, Value>, allowedFields: seq<string>): (r: map<string, Value>)
    ensures forall k :: k in r <==> k in obj && k in allowedFields
    ensures forall k :: k in r ==> r[k] == obj[k]
  {
    if allowedFields == [] then map[]
    else
      var rest := Filtered(obj, allowedFields[1..]);
      var f := allowedFields[0];
      if f in obj then rest[f := obj[f]] else rest
  }

  /**
   * The controller's loop: walk the object's keys (in any order) and insert
   * each allowed one into a fresh object.
   */
  method FilterObj(obj: map<string, Value>, allowedFields: seq<string>) returns (newObj: map<string, Value>)
    ensures newObj == Filtered(obj, allowedFields)
  {
    newObj := map[];
    var keys := obj.Keys;
    while keys != {}
      invariant keys <= obj.Keys
      invariant forall k :: k in newObj <==> k in obj && k !in keys && k in allowedFields
      invariant forall k :: k in newObj ==> newObj[k] == obj[k]
      decreases keys
    {
      var el :| el in keys;
      if el in allowedFields {
        newObj := newObj[el := obj[el]];
      }
      keys := keys - {el};
    }
  }

  /** Filtering never adds a key and never alters a value: the result is a sub-map. */
  lemma FilteredIsSubMap(obj: map<string, Value>, allowedFields: seq<string>)
    ensures Filtered(obj, allowedFields).Keys <= obj.Keys
    ensures forall k :: k in Filtered(obj, allowedFields) ==> Filtered(obj, allowedFields)[k] == obj[k]
  {
  }

  /** Filtering an already filtered object with the same allow-list changes nothing. */
  lemma FilteredIdempotent(obj: map<string, Value>, allowedFields: seq<string>)
    ensures Filtered(Filtered(obj, allowedFields), allowedFields) == Filtered(obj, allowedFields)
  {
    var once := Filtered(obj, allowedFields);
    var twice := Filtered(once, allowedFields);
    assert forall k :: k in twice <==> k in once;
  }

  /** Filtering depends on the allow-list only as a set: order and repeats do not matter. */
  lemma FilteredBySetOfFields(obj: map<string, Value>, a: seq<string>, b: seq<string>)
    requires forall f :: f in a <==> f in b
    ensures Filtered(obj, a) == Filtered(obj, b)
  {
    var ra := Filtered(obj, a);
    var rb := Filtered(obj, b);
    assert forall k :: k in ra <==> k in rb;
  }
}
