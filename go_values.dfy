/** Go values shared by the playground merge and copy models.

    A Go string is a sequence of bytes; here each byte is one `char` of a
    `seq<char>` (all names handled by the generator are ASCII identifiers).
    `float64` and `time.Time` values are only ever assigned or copied, never
    computed on, so they are opaque datatypes. */
module GoValues {

  datatype Option<+T> = None | Some(value: T)

  /** A float64, kept as its bit pattern: only copied, never computed on. */
  datatype Float64 = Float64(bits: bv64)

  /** A time.Time, opaque: only copied, never computed on. */
  datatype Time = Time(wall: int, ext: int, loc: int)

  const ZeroFloat: Float64 := Float64(0)
  const ZeroTime: Time := Time(0, 0, 0)

  /** A dynamically typed Go value held in an `any`, as far as the
      playgrounds distinguish them: the four container types that
      deepCopyAny and deepMergeMap look at, and everything else. */
  datatype Any =
    | Nil                               // the nil interface
    | Bool(b: bool)
    | Int(i: int)
    | Float(f: Float64)
    | Str(s: string)
    | Object(fields: map<string, Any>)  // map[string]any
    | List(items: seq<Any>)             // []any
    | Strings(strs: seq<string>)        // []string
    | Ints(ints: seq<int>)              // []int
    | Opaque(id: int)                   // any other dynamic type, passed as is
}
