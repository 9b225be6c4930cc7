// Schema/Traits/ArrayAccess.php and Schema/Traits/ClassPropertiesArrayAccess.php:
// the two ways schema objects implement PHP's \ArrayAccess. Each trait becomes
// a class over the state it reads and writes.

module ArrayAccessTraits {
  import opened Wrappers
  import opened PhpValues

  /** `isset($x)`: present and not null. */
  predicate IsSet(v: Option<Value>)
  {
    v.Some? && v.value != VNull
  }

  /** The ArrayAccess trait: offsets index the PHP array held in `data`. */
  class DataArrayAccess {
    var data: Entries

    constructor ()
      ensures data == []
    {
      data := [];
    }

    method OffsetExists(offset: Key) returns (b: bool)
      ensures b <==> IsSet(ArrGet(data, offset))
    {
      b := IsSet(ArrGet(data, offset));
    }

    /** A missing or null entry reads as null. */
    method OffsetGet(offset: Key) returns (v: Value)
      ensures IsSet(ArrGet(data, offset)) ==> Some(v) == ArrGet(data, offset)
      ensures !IsSet(ArrGet(data, offset)) ==> v == VNull
    {
      var e := ArrGet(data, offset);
      v := if IsSet(e) then e.value else VNull;
    }

    method OffsetSet(offset: Key, value: Value)
      modifies this
      ensures data == ArrPut(old(data), offset, value)
      ensures ArrGet(data, offset) == Some(value)
      ensures forall k :: k != offset ==> ArrGet(data, k) == ArrGet(old(data), k)
    {
      data := ArrPut(data, offset, value);
      GetAfterPut(old(data), offset, value);
      forall k | k != offset ensures ArrGet(data, k) == ArrGet(old(data), k) {
        GetOtherAfterPut(old(data), offset, value, k);
      }
    }

    method OffsetUnset(offset: Key)
      modifies this
      ensures data == ArrRemove(old(data), offset)
      ensures ArrGet(data, offset).None?
      ensures forall k :: k != offset ==> ArrGet(data, k) == ArrGet(old(data), k)
    {
      data := ArrRemove(data, offset);
      forall k ensures ArrGet(data, offset).None? && (k != offset ==> ArrGet(data, k) == ArrGet(old(data), k)) {
        GetAfterRemove(old(data), offset, k);
      }
    }
  }

  /**
   * The ClassPropertiesArrayAccess trait: offsets name object properties.
   * `fields` maps each property that has been declared or assigned to its value;
   * reading any other name gives null, as PHP does for an undefined property.
   */
  class ClassPropertiesAccess {
    var fields: map<string, Value>

    constructor (declared: map<string, Value>)
      ensures fields == declared
    {
      fields := declared;
    }

    method OffsetExists(offset: string) returns (b: bool)
      ensures b <==> offset in fields && fields[offset] != VNull
    {
      b := offset in fields && fields[offset] != VNull;
    }

    method OffsetGet(offset: string) returns (v: Value)
      ensures offset in fields ==> v == fields[offset]
      ensures offset !in fields ==> v == VNull
    {
      v := if offset in fields then fields[offset] else VNull;
    }

    method OffsetSet(offset: string, value: Value)
      modifies this
      ensures fields == old(fields)[offset := value]
      ensures forall f :: f != offset && f in old(fields) ==> f in fields && fields[f] == old(fields)[f]
    {
      fields := fields[offset := value];
    }

    /** Unsetting keeps the property and sets it to null, so OffsetExists becomes false. */
    method OffsetUnset(offset: string)
      modifies this
      ensures fields == old(fields)[offset := VNull]
      ensures offset in fields && fields[offset] == VNull
    {
      fields := fields[offset := VNull];
    }
  }
}
