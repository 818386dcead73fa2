/** Data-type format names and the Swagger 2.0 collection formats. */
module Formats {
  import opened Wrappers

  datatype StringFormat = Byte | Binary | Date | DateTime | Password | Uuid | Custom(name: string)

  /** `impl Display for StringFormat`. */
  function Print(f: StringFormat): string
  {
    match f
    case Byte => "byte"
    case Binary => "binary"
    case Date => "date"
    case DateTime => "date-time"
    case Password => "password"
    case Uuid => "uuid"
    case Custom(s) => s
  }

  /** The names printed by the six named formats. */
  predicate Reserved(s: string)
  {
    s == "byte" || s == "binary" || s == "date" || s == "date-time" || s == "password" || s == "uuid"
  }

  /** The string visitor of `StringFormat`: it never fails, unknown names become `Custom`. */
  function Parse(s: string): (r: StringFormat)
    ensures r.Custom? <==> !Reserved(s)
    ensures Print(r) == s
  {
    match s
    case "byte" => Byte
    case "binary" => Binary
    case "date" => Date
    case "date-time" => DateTime
    case "password" => Password
    case "uuid" => Uuid
    case _ => Custom(s)
  }

  /** Printing then parsing gives the format back, unless a custom format borrows a reserved name. */
  lemma ParsePrint(f: StringFormat)
    ensures Parse(Print(f)) == f <==> !(f.Custom? && Reserved(f.name))
  {
  }

  datatype IntegerFormat = Int32 | Int64

  function PrintInteger(f: IntegerFormat): (r: string)
    ensures r == "int32" || r == "int64"
  {
    match f
    case Int32 => "int32"
    case Int64 => "int64"
  }

  datatype NumberFormat = Float | Double

  function PrintNumber(f: NumberFormat): (r: string)
    ensures r == "float" || r == "double"
  {
    match f
    case Float => "float"
    case Double => "double"
  }

  datatype CollectionFormat = Csv | Ssv | Tsv | Pipes | Multi

  const DefaultCollectionFormat: CollectionFormat := Csv

  function PrintCollection(f: CollectionFormat): string
  {
    match f
    case Csv => "csv"
    case Ssv => "ssv"
    case Tsv => "tsv"
    case Pipes => "pipes"
    case Multi => "multi"
  }

  /** The serde names of the enum variants, read back. */
  function ParseCollection(s: string): (r: Option<CollectionFormat>)
    ensures r.Some? ==> PrintCollection(r.value) == s
  {
    match s
    case "csv" => Some(Csv)
    case "ssv" => Some(Ssv)
    case "tsv" => Some(Tsv)
    case "pipes" => Some(Pipes)
    case "multi" => Some(Multi)
    case _ => None
  }



  /** Every printing format prints distinctly and is read back by name; the default prints "csv". */
  lemma CollectionRoundTrip(f: CollectionFormat)
    ensures ParseCollection(PrintCollection(f)) == Some(f)
    ensures PrintCollection(DefaultCollectionFormat) == "csv"
  {
  }

  /** Integer and number format names are distinct per variant. */
  lemma PrintInjective(a: IntegerFormat, b: IntegerFormat, x: NumberFormat, y: NumberFormat)
    ensures PrintInteger(a) == PrintInteger(b) ==> a == b
    ensures PrintNumber(x) == PrintNumber(y) ==> x == y
  {
  }
}
