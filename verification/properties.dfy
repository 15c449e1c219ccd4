/**
 * Feature properties: the codec's raw (key, value) pairs, the owned values
 * they are converted to, and materialization, the order-preserving copy.
 */
module Properties {

  /** The value kinds a vector-tile property may carry. */
  datatype PropertyValue =
    | StringValue(s: string)
    | FloatValue(f: real)
    | DoubleValue(d: real)
    | IntValue(i: int)
    | UIntValue(u: nat)
    | SIntValue(i: int)
    | BoolValue(b: bool)

  /** One property of a decoded feature, in the order the tile stores them. */
  datatype Property = Property(key: string, value: PropertyValue)

  /** An owned property value (the output variant). */
  datatype FeatureValue =
    | NullValue
    | BoolOf(b: bool)
    | UInt64Of(u: nat)
    | Int64Of(i: int)
    | DoubleOf(d: real)
    | StringOf(s: string)

  /** A materialized property: an owned key and value. */
  datatype MaterializedProp = MaterializedProp(key: string, value: FeatureValue)

  /**
   * Conversion of a raw value into an owned one: never null, the value kept,
   * both floating kinds widened to double and both signed kinds to int64.
   */
  function ConvertPropertyValue(v: PropertyValue): (r: FeatureValue)
    ensures !r.NullValue?
    ensures r.StringOf? <==> v.StringValue?
    ensures r.BoolOf? <==> v.BoolValue?
    ensures r.UInt64Of? <==> v.UIntValue?
    ensures r.DoubleOf? <==> v.FloatValue? || v.DoubleValue?
    ensures r.Int64Of? <==> v.IntValue? || v.SIntValue?
    ensures r.StringOf? ==> r.s == v.s
    ensures r.BoolOf? ==> r.b == v.b
    ensures r.UInt64Of? ==> r.u == v.u
    ensures r.DoubleOf? ==> r.d == (if v.FloatValue? then v.f else v.d)
    ensures r.Int64Of? ==> r.i == v.i
  {
    match v
    case StringValue(s) => StringOf(s)
    case FloatValue(f) => DoubleOf(f)
    case DoubleValue(d) => DoubleOf(d)
    case IntValue(i) => Int64Of(i)
    case UIntValue(u) => UInt64Of(u)
    case SIntValue(i) => Int64Of(i)
    case BoolValue(b) => BoolOf(b)
  }

  /** A property with an owned copy of its key and its converted value. */
  function MaterializeProperty(p: Property): (m: MaterializedProp)
    ensures m.key == p.key && m.value == ConvertPropertyValue(p.value)
  {
    MaterializedProp(p.key, ConvertPropertyValue(p.value))
  }

  /**
   * The materialized copy of a property list: same length, the same keys in
   * the same order, each value converted.
   */
  function Materialized(props: seq<Property>): (m: seq<MaterializedProp>)
    ensures |m| == |props|
    ensures forall i :: 0 <= i < |props| ==>
              m[i].key == props[i].key && m[i].value == ConvertPropertyValue(props[i].value)
  {
    if props == [] then []
    else Materialized(props[..|props| - 1]) + [MaterializeProperty(props[|props| - 1])]
  }
}
