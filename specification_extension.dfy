// Schema/Traits/SpecificationExtension.php: the map of custom ("x-")
// properties that every extensible schema object carries. The trait becomes
// a class over the one field it declares; schema values that carry the same
// map (see OpenApiSchema) read it through `Lookup`.

module SpecificationExtension {
  import opened PhpValues

  type CustomProperties = map<string, Value>

  /** `$this->customProperties[$key] ?? null`. */
  function Lookup(m: CustomProperties, key: string): Value
  {
    if key in m then m[key] else VNull
  }

  class ExtensionHolder {
    var customProperties: CustomProperties

    /** A fresh object starts with no custom property. */
    constructor ()
      ensures customProperties == map[]
    {
      customProperties := map[];
    }

    method SetCustomProperties(m: CustomProperties)
      modifies this
      ensures customProperties == m
    {
      customProperties := m;
    }

    method GetCustomProperties() returns (m: CustomProperties)
      ensures m == customProperties
    {
      m := customProperties;
    }

    method SetCustomProperty(key: string, value: Value)
      modifies this
      ensures customProperties == old(customProperties)[key := value]
      ensures Lookup(customProperties, key) == value
      ensures forall k :: k != key ==> Lookup(customProperties, k) == Lookup(old(customProperties), k)
    {
      customProperties := customProperties[key := value];
    }

    method GetCustomProperty(key: string) returns (v: Value)
      ensures key in customProperties ==> v == customProperties[key]
      ensures key !in customProperties ==> v == VNull
    {
      v := Lookup(customProperties, key);
    }

    method RemoveCustomProperty(key: string)
      modifies this
      ensures customProperties == old(customProperties) - {key}
      ensures Lookup(customProperties, key) == VNull
      ensures forall k :: k != key ==> Lookup(customProperties, k) == Lookup(old(customProperties), k)
    {
      customProperties := customProperties - {key};
    }
  }
}
