/** The input values the converter walks: a closed set of shapes standing for what Go's
    reflection reports (interfaces already unwrapped), and the scalar leaves stored per record. */
module Values {
  import opened Decimal

  /** `reflect.Kind`, restricted to the kinds the converter distinguishes. */
  datatype Kind = KInvalid | KBool | KInt | KUint | KFloat | KString
                | KStruct | KMap | KSlice | KArray | KPtr | KChan | KOther

  /** A struct field (name and value) or a map entry (key string and value). */
  datatype Field = Field(name: string, value: Val)

  datatype Val =
    | Invalid                     // no value at all, as for a nil interface
    | Str(s: string)
    | IntV(i: Int64)              // any signed integer width, as `Value.Int()` reports it
    | UintV(u: Uint64)            // any unsigned integer width, as `Value.Uint()` reports it
    | FloatV(bits: Uint64)        // a float, kept opaque: the bits of its float64 image
    | BoolV(b: bool)
    | Struct(fields: seq<Field>)  // fields in declaration order
    | MapV(fields: seq<Field>)    // a non-nil map; entries in the (unspecified) iteration order
    | SliceV(elems: seq<Val>)     // a non-nil slice
    | ArrayV(elems: seq<Val>)
    | Ptr(target: Val)            // a non-nil pointer
    | Chan(buffered: nat)         // a non-nil channel holding `buffered` values
    | NilMap | NilSlice | NilPtr | NilChan  // nil values of those kinds
    | NilOther                    // any other nil: interface, func
    | Unsupported(kind: string)   // a non-nil value of another kind with no flattening (func, complex, ...)

  function KindOf(v: Val): Kind
  {
    match v
    case Invalid => KInvalid
    case Str(_) => KString
    case IntV(_) => KInt
    case UintV(_) => KUint
    case FloatV(_) => KFloat
    case BoolV(_) => KBool
    case Struct(_) => KStruct
    case MapV(_) | NilMap => KMap
    case SliceV(_) | NilSlice => KSlice
    case ArrayV(_) => KArray
    case Ptr(_) | NilPtr => KPtr
    case Chan(_) | NilChan => KChan
    case NilOther | Unsupported(_) => KOther
  }

  /** `!v.IsValid() || v.IsZero()`: the guard under which the converter skips a value.
      Structs and arrays are zero when all their parts are; a float is zero only as +0.0. */
  predicate IsZero(v: Val)
  {
    match v
    case Invalid => true
    case Str(s) => s == ""
    case IntV(i) => i == 0
    case UintV(u) => u == 0
    case FloatV(bits) => bits == 0
    case BoolV(b) => !b
    case Struct(fs) => forall i | 0 <= i < |fs| :: IsZero(fs[i].value)
    case ArrayV(es) => forall i | 0 <= i < |es| :: IsZero(es[i])
    case MapV(_) | SliceV(_) | Ptr(_) | Chan(_) | Unsupported(_) => false
    case NilMap | NilSlice | NilPtr | NilChan | NilOther => true
  }

  /** A scalar as stored in a record: what `Value.String()`, `Int()`, `Uint()`, `Float()` and `Bool()` return. */
  datatype Leaf = LString(s: string) | LInt(i: Int64) | LUint(u: Uint64) | LFloat(bits: Uint64) | LBool(b: bool)

  predicate LeafIsZero(l: Leaf)
  {
    match l
    case LString(s) => s == ""
    case LInt(i) => i == 0
    case LUint(u) => u == 0
    case LFloat(bits) => bits == 0
    case LBool(b) => !b
  }
}
