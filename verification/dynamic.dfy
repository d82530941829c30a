/** The dynamically typed values (Go's `any`) that flow through the extension
    functions: decoded call arguments from the evaluator, and the values the
    document-store driver hands back. The variant is closed; every Go dynamic
    type the core distinguishes in a type switch has its own constructor, and
    `Other` stands for any further type, which the core only passes through. */
module Dynamic {

  /** A byte of an object id. The driver's ids have twelve; the model does
      not fix the length. */
  type Byte = n: nat | n < 256

  /** The Go integer types. `byte` is Go's alias of `uint8`. */
  datatype IntKind = Int | Int8 | Int16 | Int32 | Int64 | Uint8 | Uint16 | Uint32 | Uint64

  datatype Value =
    | Nil                                  // untyped nil
    | Bool(b: bool)
    | Str(s: string)
    | Integer(kind: IntKind, i: int)       // a Go integer of the given type (its range is not enforced)
    | F32(f: real)                         // float32, as its (finite) value
    | F64(x: real)                         // float64, as its (finite) value
    | Slice(items: seq<Value>)             // []any
    | Dict(entries: map<string, Value>)    // map[string]any
    | BsonA(elems: seq<Value>)             // bson.A (primitive.A)
    | BsonM(fields: map<string, Value>)    // bson.M (primitive.M)
    | BsonD(doc: seq<Elem>)                // bson.D (primitive.D), an ordered document
    | ObjectId(id: seq<Byte>)              // primitive.ObjectID
    | Other(typeName: string)              // any other dynamic type

  /** One key/value entry of an ordered bson.D document. */
  datatype Elem = Elem(key: string, value: Value)

  function IntKindName(k: IntKind): string
  {
    match k
    case Int => "int"
    case Int8 => "int8"
    case Int16 => "int16"
    case Int32 => "int32"
    case Int64 => "int64"
    case Uint8 => "uint8"
    case Uint16 => "uint16"
    case Uint32 => "uint32"
    case Uint64 => "uint64"
  }

  /** The name Go's `%T` verb prints for a value's dynamic type. */
  function TypeName(v: Value): string
  {
    match v
    case Nil => "<nil>"
    case Bool(_) => "bool"
    case Str(_) => "string"
    case Integer(k, _) => IntKindName(k)
    case F32(_) => "float32"
    case F64(_) => "float64"
    case Slice(_) => "[]interface {}"
    case Dict(_) => "map[string]interface {}"
    case BsonA(_) => "primitive.A"
    case BsonM(_) => "primitive.M"
    case BsonD(_) => "primitive.D"
    case ObjectId(_) => "primitive.ObjectID"
    case Other(name) => name
  }

  /** Two values have the same dynamic type: the same constructor, and for
      integers the same integer type. */
  predicate SameType(u: Value, v: Value)
  {
    || (u.Nil? && v.Nil?)
    || (u.Bool? && v.Bool?)
    || (u.Str? && v.Str?)
    || (u.Integer? && v.Integer? && u.kind == v.kind)
    || (u.F32? && v.F32?)
    || (u.F64? && v.F64?)
    || (u.Slice? && v.Slice?)
    || (u.Dict? && v.Dict?)
    || (u.BsonA? && v.BsonA?)
    || (u.BsonM? && v.BsonM?)
    || (u.BsonD? && v.BsonD?)
    || (u.ObjectId? && v.ObjectId?)
  }

  /** Distinct integer types print distinct names. */
  lemma IntKindNameInjective(j: IntKind, k: IntKind)
    ensures IntKindName(j) == IntKindName(k) <==> j == k
  {
  }

  /** Among the types the core distinguishes, `%T` prints the same name for
      two values exactly when they have the same dynamic type. */
  lemma TypeNameIdentifiesType(u: Value, v: Value)
    requires !u.Other? && !v.Other?
    ensures TypeName(u) == TypeName(v) <==> SameType(u, v)
  {
    if u.Integer? && v.Integer? {
      IntKindNameInjective(u.kind, v.kind);
    }
  }
}
