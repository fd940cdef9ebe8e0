/**
 * Field types shared by the stored document schemas: weak references, the
 * creation instant, the schema-less `Object` value, and the validation errors
 * a document can be refused with.
 */
module SchemaTypes {

  /** A reference to another collection's document: an opaque identifier, never checked for existence. */
  datatype ObjectId = ObjectId(hex: string)

  /** An instant, in milliseconds since the epoch. */
  type Time = int

  /** A schema-less value: what a path of type `Object` accepts. */
  datatype Mixed =
    | Null
    | Bool(b: bool)
    | Number(x: real)
    | Text(s: string)
    | Array(items: seq<Mixed>)
    | Dict(entries: map<string, Mixed>)

  /** Why a document is refused: a required path is missing, or a path is outside its enum. */
  datatype ValidationError =
    | Required(path: string)
    | NotInEnum(path: string, value: string)
}
