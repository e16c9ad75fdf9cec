/**
 * The user record store as the controller uses it: `User.findByIdAndUpdate`.
 * Records are keyed by user id; an update merges the given fields into one
 * record. The schema in models/userModel.js is not part of this model: its
 * update validators are an opaque per-field predicate fixed when the store
 * is created, and its query middleware and casting are left out.
 */
module UserStore {
  import opened Wrappers
  import opened JsValues

  type Id = string

  type Record = map<string, Value>

  /** Mongoose's ValidationError, naming the fields whose validators refused the update. */
  datatype StoreError = ValidationError(paths: set<string>)

  /** The update `deleteMe` sends: `{ active: false }`. */
  const Deactivation: Record := map["active" := Bool(false)]

  /**
   * The records after merging `patch` into the record of `id`: that record
   * gains or overwrites exactly the patch's fields, every other record and
   * every other field stays as it was, and a missing id changes nothing.
   */
  function Committed(records: map<Id, Record>, id: Id, patch: Record): (r: map<Id, Record>)
    ensures r.Keys == records.Keys
    ensures forall other :: other in records && other != id ==> r[other] == records[other]
    ensures id in records ==> r[id].Keys == records[id].Keys + patch.Keys
    ensures id in records ==> forall k :: k in patch ==> r[id][k] == patch[k]
    ensures id in records ==> forall k :: k in records[id] && k !in patch ==> r[id][k] == records[id][k]
  {
    if id in records then records[id := records[id] + patch] else records
  }

  /** Merging the same patch twice is the same as merging it once. */
  lemma CommitIdempotent(records: map<Id, Record>, id: Id, patch: Record)
    ensures Committed(Committed(records, id, patch), id, patch) == Committed(records, id, patch)
  {
    var once := Committed(records, id, patch);
    if id in records {
      assert once[id] + patch == once[id];
    }
  }

  /** Any number of merges into one id never touch another id's record. */
  lemma CommitsIsolated(records: map<Id, Record>, id: Id, first: Record, second: Record, other: Id)
    requires other != id
    ensures other in Committed(Committed(records, id, first), id, second) <==> other in records
    ensures other in records ==> Committed(Committed(records, id, first), id, second)[other] == records[other]
  {
  }

  /**
   * Deactivation marks the record inactive, keeps every other field, leaves
   * other users alone, and deactivating twice is the same as once.
   */
  lemma DeactivationEffect(records: map<Id, Record>, id: Id)
    ensures id in records ==> Committed(records, id, Deactivation)[id]["active"] == Bool(false)
    ensures id in records ==> forall k :: k in records[id] && k != "active" ==>
      k in Committed(records, id, Deactivation)[id] && Committed(records, id, Deactivation)[id][k] == records[id][k]
    ensures forall other :: other in records && other != id ==> Committed(records, id, Deactivation)[other] == records[other]
    ensures Committed(Committed(records, id, Deactivation), id, Deactivation) == Committed(records, id, Deactivation)
  {
    CommitIdempotent(records, id, Deactivation);
  }

  class Store {
    var records: map<Id, Record>
    /** The schema's update validator for one field and its new value. */
    const validate: (string, Value) -> bool

    constructor (records: map<Id, Record>, validate: (string, Value) -> bool)
      ensures this.records == records && this.validate == validate
    {
      this.records := records;
      this.validate := validate;
    }

    /** The fields of an update whose validator refuses the new value. */
    function Violations(patch: Record): set<string>
    {
      set k | k in patch && !validate(k, patch[k])
    }

    /**
     * `findByIdAndUpdate(id, patch, { new: true, runValidators })`: when
     * validators are requested and one refuses, nothing is written and a
     * ValidationError is returned; otherwise the patch is merged into the
     * record of `id` and the updated record (none for an unknown id) is returned.
     */
    method FindByIdAndUpdate(id: Id, patch: Record, runValidators: bool) returns (r: Result<Option<Record>, StoreError>)
      modifies this
      ensures runValidators && Violations(patch) != {} ==>
        r == Err(ValidationError(Violations(patch))) && records == old(records)
      ensures !(runValidators && Violations(patch) != {}) ==>
        records == Committed(old(records), id, patch)
        && r == Ok(if id in records then Some(records[id]) else None)
    {
      if runValidators {
        var refused := Violations(patch);
        if refused != {} {
          return Err(ValidationError(refused));
        }
      }
      if id in records {
        records := records[id := records[id] + patch];
        r := Ok(Some(records[id]));
      } else {
        r := Ok(None);
      }
    }
  }
}
