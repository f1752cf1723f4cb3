/** What the expiration policy reads of Iceberg's schema types: the
    type identifier of a resolved field. */
module Iceberg {

  /** Iceberg's Type.TypeID. */
  datatype TypeId =
    | BOOLEAN | INTEGER | LONG | FLOAT | DOUBLE | DATE | TIME | TIMESTAMP
    | STRING | UUID | FIXED | BINARY | DECIMAL | STRUCT | LIST | MAP

  /** The enum constant's name, as TypeID.name() returns it. */
  function TypeIdName(t: TypeId): string {
    match t
    case BOOLEAN => "BOOLEAN"
    case INTEGER => "INTEGER"
    case LONG => "LONG"
    case FLOAT => "FLOAT"
    case DOUBLE => "DOUBLE"
    case DATE => "DATE"
    case TIME => "TIME"
    case TIMESTAMP => "TIMESTAMP"
    case STRING => "STRING"
    case UUID => "UUID"
    case FIXED => "FIXED"
    case BINARY => "BINARY"
    case DECIMAL => "DECIMAL"
    case STRUCT => "STRUCT"
    case LIST => "LIST"
    case MAP => "MAP"
  }

  /** A Types.NestedField, reduced to what `field.type().typeId()` reads. */
  datatype NestedField = NestedField(typeId: TypeId)
}
