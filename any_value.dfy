// Schema/Any.php: the wrapper for an arbitrary ("mixed") value of the
// document, and its `convert` helper that wraps raw values.

module AnyValue {
  import opened PhpValues

  /** `static::convert($data)` with the array flag off, as applied to one element. */
  function ConvertOne(v: Value): Value
  {
    if v == VNull then VNull else if v.VAny? then v else VAny(v)
  }

  /** The array case: every entry converted one level deep, under its own key. */
  function ConvertEntries(es: Entries): (r: Entries)
    ensures |r| == |es|
  {
    seq(|es|, i requires 0 <= i < |es| => (es[i].0, ConvertOne(es[i].1)))
  }

  /** What `Any::convert($value, $valueIsArray)` returns. */
  function Converted(v: Value, valueIsArray: bool): Value
  {
    if v == VNull then VNull
    else if valueIsArray && v.VArr? then VArr(ConvertEntries(v.entries))
    else ConvertOne(v)
  }

  /** `Any::convert`: the loop rewrites the local copy of the array entry by entry. */
  method Convert(value: Value, valueIsArray: bool) returns (r: Value)
    ensures r == Converted(value, valueIsArray)
    decreases if valueIsArray then 1 else 0
  {
    if value == VNull {
      return value;
    }
    if valueIsArray && value.VArr? {
      var es := value.entries;
      var i := 0;
      while i < |es|
        invariant 0 <= i <= |es| == |value.entries|
        invariant forall j :: 0 <= j < i ==> es[j] == (value.entries[j].0, ConvertOne(value.entries[j].1))
        invariant forall j :: i <= j < |es| ==> es[j] == value.entries[j]
      {
        var c := Convert(es[i].1, false);
        es := es[i := (es[i].0, c)];
        i := i + 1;
      }
      return VArr(es);
    }
    if value.VAny? {
      return value;
    }
    r := VAny(value);
  }

  /** Converting twice gives the same as converting once. */
  lemma ConvertIdempotent(v: Value, valueIsArray: bool)
    ensures Converted(Converted(v, valueIsArray), valueIsArray) == Converted(v, valueIsArray)
  {
    if v != VNull && valueIsArray && v.VArr? {
      var once := ConvertEntries(v.entries);
      var twice := ConvertEntries(once);
      assert forall i :: 0 <= i < |once| ==> twice[i] == once[i];
    }
  }

  /** The array flag keeps the keys and wraps every non-null element; null elements stay null. */
  lemma ConvertArrayKeepsKeys(es: Entries)
    ensures Converted(VArr(es), true).VArr?
    ensures KeysOf(Converted(VArr(es), true).entries) == KeysOf(es)
    ensures forall i :: 0 <= i < |es| && es[i].1 != VNull ==> Converted(VArr(es), true).entries[i].1.VAny?
    ensures forall i :: 0 <= i < |es| && es[i].1 == VNull ==> Converted(VArr(es), true).entries[i].1 == VNull
  {
  }

  /** Without the flag a non-null value that is not an Any yet is wrapped whole, so its data is the value itself. */
  lemma ConvertWraps(v: Value, valueIsArray: bool)
    requires v != VNull && !v.VAny? && !(valueIsArray && v.VArr?)
    ensures Converted(v, valueIsArray) == VAny(v)
    ensures Converted(v, valueIsArray).data == v
  {
  }

  /** An instance of Schema\Any. */
  class Any {
    var data: Value

    constructor (d: Value)
      ensures data == d
    {
      data := d;
    }

    method GetData() returns (d: Value)
      ensures d == data
    {
      d := data;
    }

    /** The serialization handler emits the wrapped value itself. */
    method Serialize() returns (d: Value)
      ensures d == data
    {
      d := data;
    }

    /** The deserialization handler replaces the wrapped value. */
    method Deserialize(d: Value)
      modifies this
      ensures data == d
    {
      data := d;
    }
  }
}
