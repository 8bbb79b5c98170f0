/** The dirty-tracking record: a row's fields, the subset of fields changed
    since the last save (with the values they were set to), and whether the row
    still has to be inserted. */
module OrmEntry {
  import opened Wrappers
  import opened PhpArrays

  class Entry {
    /** The row's fields, in insertion order. */
    var data: Dict<Value>
    /** Fields changed since the last save, in the order they were first changed. */
    var dirtyFields: Dict<Value>
    /** True until the row has been inserted. */
    var newEntry: bool
    /** The primary-key column, fixed from the owning builder when the entry is made. */
    const idField: string

    /** Every dirty field is a field of the row. */
    ghost predicate Valid()
      reads this
    {
      KeySet(dirtyFields) <= KeySet(data)
    }

    /** A loaded entry starts clean and not new; a new entry has every field dirty. */
    constructor (data: Dict<Value>, idField: string, isNew: bool)
      ensures this.data == data && this.idField == idField && newEntry == isNew
      ensures dirtyFields == if isNew then data else []
      ensures Valid()
    {
      this.data := data;
      this.idField := idField;
      newEntry := isNew;
      dirtyFields := if isNew then data else [];
    }

    /** `set(key, value)`: the value is stored in the row and recorded as dirty. */
    method Set(key: string, value: Value)
      requires Valid()
      modifies this`data, this`dirtyFields
      ensures data == Put(old(data), key, value)
      ensures dirtyFields == Put(old(dirtyFields), key, value)
      ensures Get(key) == value && key in KeySet(dirtyFields)
      ensures IsDirty(key) <==> value != Null
      ensures forall k :: k != key ==> Lookup(data, k) == Lookup(old(data), k) && IsDirty(k) == old(IsDirty(k))
      ensures Valid()
    {
      data := Put(data, key, value);
      dirtyFields := Put(dirtyFields, key, value);
    }

    /** `setField(key, value)`: the row changes, the dirty map does not. */
    method SetField(key: string, value: Value)
      requires Valid()
      modifies this`data
      ensures data == Put(old(data), key, value)
      ensures Get(key) == value
      ensures forall k :: k != key ==> Lookup(data, k) == Lookup(old(data), k)
      ensures Valid()
    {
      data := Put(data, key, value);
    }

    /** `unsetDirty(key)`: only `key` leaves the dirty map; the row is untouched. */
    method UnsetDirty(key: string)
      requires Valid()
      modifies this`dirtyFields
      ensures dirtyFields == Remove(old(dirtyFields), key)
      ensures !IsDirty(key) && KeySet(dirtyFields) == old(KeySet(dirtyFields)) - {key}
      ensures forall k :: k != key ==> Lookup(dirtyFields, k) == Lookup(old(dirtyFields), k)
      ensures Valid()
    {
      dirtyFields := Remove(dirtyFields, key);
    }

    /** `resetDirty()`: nothing is dirty any more; the row is untouched. */
    method ResetDirty()
      modifies this`dirtyFields
      ensures dirtyFields == []
      ensures forall k :: !IsDirty(k)
      ensures Valid()
    {
      dirtyFields := [];
    }

    /** `forceAllDirty()`: every field of the row becomes dirty with its current value. */
    method ForceAllDirty()
      modifies this`dirtyFields
      ensures dirtyFields == data
      ensures KeySet(dirtyFields) == KeySet(data)
      ensures Valid()
    {
      dirtyFields := data;
    }

    /** `updateNewStatus()`: toggles the new flag (twice restores it). */
    method UpdateNewStatus()
      modifies this`newEntry
      ensures newEntry == !old(newEntry)
    {
      newEntry := !newEntry;
    }

    /** `isDirty(key)`: the key is in the dirty map with a non-null value. */
    predicate IsDirty(key: string)
      reads this
      ensures IsDirty(key) ==> key in KeySet(dirtyFields)
      ensures IsDirty(key) <==> exists i :: 0 <= i < |dirtyFields| && dirtyFields[i].0 == key && dirtyFields[i].1 != Null
    {
      IsSet(dirtyFields, key)
    }

    /** `$entry->key`: the stored value, or null for a missing field. */
    function Get(key: string): (r: Value)
      reads this
      ensures key !in KeySet(data) ==> r == Null
      ensures forall i :: 0 <= i < |data| && data[i].0 == key ==> r == data[i].1
    {
      match Lookup(data, key)
      case Some(v) => v
      case None => Null
    }

    /** `isset($entry->key)`: the field exists and is not null. */
    predicate Has(key: string)
      reads this
      ensures Has(key) <==> Get(key) != Null
    {
      IsSet(data, key)
    }

    /** `getID()`: the primary key's value when it is set, null otherwise. */
    function GetID(): (r: Value)
      reads this
      ensures r == Get(idField)
      ensures r == Null <==> !Has(idField)
    {
      if IsSet(data, idField) then Lookup(data, idField).value else Null
    }

    function IsNew(): bool
      reads this
    {
      newEntry
    }

    function GetData(): Dict<Value>
      reads this
    {
      data
    }

    function GetDirtyFields(): Dict<Value>
      reads this
    {
      dirtyFields
    }

    /** `asArray(k1, k2, …)`: without keys the whole row; with keys the row restricted
        to them, in the row's order, absent keys silently omitted. */
    function AsArray(keys: seq<string>): (r: Dict<Value>)
      reads this
      ensures |keys| == 0 ==> r == data
      ensures |keys| > 0 ==> KeySet(r) == KeySet(data) * (set k | k in keys)
      ensures |keys| > 0 ==> forall k :: Lookup(r, k) == if k in keys then Lookup(data, k) else None
      ensures |keys| > 0 ==> KeysOf(r) == FilterKeys(KeysOf(data), set k | k in keys)
      ensures forall i :: 0 <= i < |r| ==> r[i] in data
    {
      if |keys| == 0 then data
      else
        IntersectKeysOrder(data, set k | k in keys);
        IntersectKeys(data, set k | k in keys)
    }
  }
}
