/** The typed preference codec shared by `SharedPreferencesUtil.putObject` and
    `DataMapUtil.putObject`: of all the values a Java `Object` parameter can
    hold, only Integer, String and Boolean are accepted. */
module PrefCodec {
  import opened Wrappers

  /** Java's `int` and `long`. */
  newtype int32 = x: int | -0x8000_0000 <= x < 0x8000_0000
  newtype int64 = x: int | -0x8000_0000_0000_0000 <= x < 0x8000_0000_0000_0000

  /** A Java reference seen through the static type `Object`: the boxed types
      the sync code distinguishes, `Long` (the type of the sync timestamp),
      null, and every other class by its name. */
  datatype Object =
    | Null
    | Integer(i: int32)
    | JString(s: string)
    | JBoolean(b: bool)
    | Long(l: int64)
    | Other(className: OtherClassName)

  /** The name of any other class. Integer, String and Boolean are final,
      so a value whose class bears one of their names is one of them; Long
      has its own variant. */
  type OtherClassName = c: string
    | c != "java.lang.Integer" && c != "java.lang.String" && c != "java.lang.Boolean" && c != "java.lang.Long"
    witness "java.lang.Object"

  /** A preference value as stored: the tagged variant replacing run-time
      `instanceof` tests. */
  datatype PrefValue = IntV(i: int32) | StrV(s: string) | BoolV(b: bool)

  /** The exceptions the modelled code can raise. */
  datatype Error =
    | NullPointer                     // a null reference was dereferenced
    | IllegalArgument(className: string) // putObject given an unsupported type
    | ClassCast                       // a typed getter found another type
    | IllegalBitmapSize               // a bitmap scaled to a width or height <= 0

  /** The run-time class name Java reports for a non-null value. */
  function ClassName(o: Object): string
    requires !o.Null?
  {
    match o
    case Integer(_) => "java.lang.Integer"
    case JString(_) => "java.lang.String"
    case JBoolean(_) => "java.lang.Boolean"
    case Long(_) => "java.lang.Long"
    case Other(c) => c
  }

  /** The three types putObject accepts. */
  predicate Supported(o: Object) {
    o.Integer? || o.JString? || o.JBoolean?
  }

  /** The value a typed store hands back as an `Object`: boxed, type kept. */
  function Decode(v: PrefValue): (o: Object)
    ensures Supported(o)
  {
    match v
    case IntV(i) => Integer(i)
    case StrV(s) => JString(s)
    case BoolV(b) => JBoolean(b)
  }

  /** The type dispatch of putObject. A null value fails with a
      NullPointerException, not the documented IllegalArgumentException,
      because the exception message evaluates `value.getClass()`. */
  function Encode(o: Object): (r: Result<PrefValue, Error>)
    ensures r.Success? <==> Supported(o)
    ensures r.Success? ==> Decode(r.value) == o
    ensures r.Failure? && o.Null? ==> r.error == NullPointer
    ensures r.Failure? && !o.Null? ==> r.error == IllegalArgument(ClassName(o))
  {
    match o
    case Integer(i) => Success(IntV(i))
    case JString(s) => Success(StrV(s))
    case JBoolean(b) => Success(BoolV(b))
    case Null => Failure(NullPointer)
    case _ => Failure(IllegalArgument(ClassName(o)))
  }

  /** `Decode` is injective: a boxed value determines the stored one. */
  lemma DecodeInjective(a: PrefValue, b: PrefValue)
    requires Decode(a) == Decode(b)
    ensures a == b
  {
  }

  /** Every stored value can be put again unchanged. */
  lemma EncodeDecode(v: PrefValue)
    ensures Encode(Decode(v)) == Success(v)
  {
  }
}
