/**
 * The dynamic-value conversions of pkg/types/interfaces.go: Go's
 * `interface{}` is a tagged union here, and each conversion is a case split
 * on its dynamic type.
 */
module Types {
  import opened Wrappers
  import opened GoText

  // Go's fixed-width integers (`int` and `uint` are 64 bits wide).
  type I8 = x: int | -0x80 <= x < 0x80
  type I16 = x: int | -0x8000 <= x < 0x8000
  type I32 = x: int | -0x8000_0000 <= x < 0x8000_0000
  type I64 = x: int | -0x8000_0000_0000_0000 <= x < 0x8000_0000_0000_0000
  type U8 = x: int | 0 <= x < 0x100
  type U16 = x: int | 0 <= x < 0x1_0000
  type U32 = x: int | 0 <= x < 0x1_0000_0000
  type U64 = x: int | 0 <= x < 0x1_0000_0000_0000_0000

  /** A Go value held in an `interface{}`, by its dynamic type. */
  datatype Dynamic =
    | Nil                                   // untyped nil
    | Str(s: ByteString)                    // string
    | Bool(b: bool)                         // bool
    | Float64(bits64: bv64)                 // float64, by its IEEE-754 bits
    | Float32(bits32: bv32)                 // float32, by its IEEE-754 bits
    | Int(I64)                              // int
    | Int64(I64)                            // int64
    | Int32(I32)                            // int32
    | Int16(I16)                            // int16
    | Int8(I8)                              // int8
    | Uint(U64)                             // uint
    | Uint64(U64)                           // uint64
    | Uint32(U32)                           // uint32
    | Uint16(U16)                           // uint16
    | Uint8(U8)                             // uint8
    | Bytes(bytes: ByteString)              // []byte
    | List(elems: seq<Dynamic>)             // []interface{}
    | StrList(strs: seq<ByteString>)        // []string
    | StrMap(m: map<ByteString, Dynamic>)   // map[string]interface{}
    | AnyMap(am: map<Dynamic, Dynamic>)     // map[interface{}]interface{}
    | Stringer(text: ByteString)            // severity.Holder, severity.Severity or a fmt.Stringer: what String() returns
    | Error(message: ByteString)            // an error: what Error() returns
    | Other(id: nat)                        // any other value (a struct, a pointer, ...)
  {
    /** One of the signed or unsigned integer types. */
    predicate IsInteger()
    {
      Int? || Int64? || Int32? || Int16? || Int8? || Uint? || Uint64? || Uint32? || Uint16? || Uint8?
    }

    /** The mathematical value of an integer of any width. */
    function IntegerValue(): int
      requires IsInteger()
    {
      match this
      case Int(x) => x
      case Int64(x) => x
      case Int32(x) => x
      case Int16(x) => x
      case Int8(x) => x
      case Uint(x) => x
      case Uint64(x) => x
      case Uint32(x) => x
      case Uint16(x) => x
      case Uint8(x) => x
    }
  }

  // Library formatting outside this model, left uninterpreted: nothing is
  // assumed about these beyond their types.

  /** strconv.FormatFloat(f, 'f', -1, 64). */
  const FormatFloat64: bv64 -> ByteString
  /** strconv.FormatFloat(float64(f), 'f', -1, 32). */
  const FormatFloat32: bv32 -> ByteString
  /** fmt.Sprintf("%v", v) for the values whose rendering is not modelled. */
  const FormatV: Dynamic -> ByteString
  /** hex.Dump. */
  const HexDump: ByteString -> ByteString

  /**
   * ToString: nil is empty, a string or byte slice is itself, a bool is
   * "true" or "false", and an integer of any width is its base-10 rendering,
   * which reads back as the same number.
   */
  function ToString(d: Dynamic): (r: ByteString)
    ensures d.Nil? ==> r == []
    ensures d.Str? ==> r == d.s
    ensures d.Bool? ==> r == if d.b then Lit("true") else Lit("false")
    ensures d.IsInteger() ==> r == Decimal(d.IntegerValue())
    ensures d.IsInteger() ==> ParseDecimal(r) == Some(d.IntegerValue())
    ensures d.Bytes? ==> r == d.bytes
    ensures d.Stringer? ==> r == d.text
    ensures d.Error? ==> r == d.message
  {
    if d.IsInteger() then DecimalRoundTrip(d.IntegerValue()); Decimal(d.IntegerValue())
    else match d
      case Nil => []
      case Str(s) => s
      case Bool(b) => if b then Lit("true") else Lit("false")
      case Float64(f) => FormatFloat64(f)
      case Float32(f) => FormatFloat32(f)
      case Bytes(bs) => bs
      case Stringer(text) => text
      case Error(message) => message
      case _ => FormatV(d)
  }

  /** Every integer width renders through the same decimal form. */
  lemma ToStringIntegerWidths(d: Dynamic, e: Dynamic)
    requires d.IsInteger() && e.IsInteger()
    ensures (ToString(d) == ToString(e)) <==> (d.IntegerValue() == e.IntegerValue())
  {
    if ToString(d) == ToString(e) {
      assert Some(d.IntegerValue()) == ParseDecimal(ToString(e));
    }
  }

  /** The error of JSONScalarToString: the value is not a JSON scalar. */
  datatype ConversionError = CannotConvert(value: Dynamic)

  /**
   * JSONScalarToString: string, float64, nil and bool convert with ToString;
   * every other type, integers included, is an error naming the value.
   */
  function JSONScalarToString(d: Dynamic): (r: Result<ByteString, ConversionError>)
    ensures r.Success? <==> (d.Str? || d.Float64? || d.Nil? || d.Bool?)
    ensures r.Success? ==> r.value == ToString(d)
    ensures r.Failure? ==> r.error == CannotConvert(d)
  {
    match d
    case Str(_) => Success(ToString(d))
    case Float64(_) => Success(ToString(d))
    case Nil => Success(ToString(d))
    case Bool(_) => Success(ToString(d))
    case _ => Failure(CannotConvert(d))
  }

  /**
   * ToStringNSlice: a []interface{} becomes a []string of the same length
   * holding ToString of each element; anything else becomes ToString of it.
   */
  method ToStringNSlice(data: Dynamic) returns (r: Dynamic)
    ensures data.List? ==> r.StrList? && |r.strs| == |data.elems|
    ensures data.List? ==> forall i :: 0 <= i < |data.elems| ==> r.strs[i] == ToString(data.elems[i])
    ensures !data.List? ==> r == Str(ToString(data))
  {
    match data {
      case List(s) =>
        var a: seq<ByteString> := [];
        for i := 0 to |s|
          invariant |a| == i
          invariant forall j :: 0 <= j < i ==> a[j] == ToString(s[j])
        {
          a := a + [ToString(s[i])];
        }
        return StrList(a);
      case _ =>
        return Str(ToString(data));
    }
  }

  /**
   * ToHexOrString: an ASCII string is returned unchanged; any other string
   * and any byte slice are hex-dumped; everything else is formatted with %v.
   */
  function ToHexOrString(d: Dynamic): (r: ByteString)
    ensures d.Str? && IsASCII(d.s) ==> r == d.s
    ensures d.Str? && !IsASCII(d.s) ==> r == HexDump(d.s)
    ensures d.Bytes? ==> r == HexDump(d.bytes)
  {
    match d
    case Str(s) => if IsASCII(s) then s else HexDump(s)
    case Bytes(bs) => HexDump(bs)
    case _ => FormatV(d)
  }

  /**
   * ToStringSlice: a []interface{} maps element-wise through ToString, a
   * []string is returned as it is, a string is split with strings.Fields,
   * and anything else yields nil (the empty list).
   */
  method ToStringSlice(data: Dynamic) returns (r: seq<ByteString>)
    ensures data.List? ==> |r| == |data.elems| && forall i :: 0 <= i < |r| ==> r[i] == ToString(data.elems[i])
    ensures data.StrList? ==> r == data.strs
    ensures data.Str? ==> r == Fields(data.s)
    ensures !(data.List? || data.StrList? || data.Str?) ==> r == []
  {
    var a: seq<ByteString> := [];
    match data {
      case List(v) =>
        for i := 0 to |v|
          invariant |a| == i
          invariant forall j :: 0 <= j < i ==> a[j] == ToString(v[j])
        {
          a := a + [ToString(v[i])];
        }
        return a;
      case StrList(v) =>
        return v;
      case Str(v) =>
        return Fields(v);
      case _ =>
        return [];
    }
  }

  /** ToString of each element, in order. */
  function ToStrings(v: seq<Dynamic>): (r: seq<ByteString>)
    ensures |r| == |v| && forall i :: 0 <= i < |v| ==> r[i] == ToString(v[i])
  {
    seq(|v|, i requires 0 <= i < |v| => ToString(v[i]))
  }

  /**
   * ToByteSlice: a []byte is itself, a []string is the separator-free
   * concatenation of its strings, a string is its bytes, a []interface{} is
   * the concatenation of ToString of its elements, and anything else is the
   * bytes of ToString of it.
   */
  method ToByteSlice(data: Dynamic) returns (r: ByteString)
    ensures data.Bytes? ==> r == data.bytes
    ensures data.StrList? ==> r == Concat(data.strs)
    ensures data.Str? ==> r == data.s
    ensures data.List? ==> r == Concat(ToStrings(data.elems))
    ensures !(data.Bytes? || data.StrList? || data.Str? || data.List?) ==> r == ToString(data)
  {
    match data {
      case Bytes(v) =>
        return v;
      case StrList(v) =>
        return Concat(v);
      case Str(v) =>
        return v;
      case List(v) =>
        var buff: ByteString := [];
        for i := 0 to |v|
          invariant buff == Concat(ToStrings(v[..i]))
        {
          assert v[..i + 1] == v[..i] + [v[i]];
          assert ToStrings(v[..i + 1]) == ToStrings(v[..i]) + [ToString(v[i])];
          ConcatSnoc(ToStrings(v[..i]), ToString(v[i]));
          buff := buff + ToString(v[i]);
        }
        assert v[..|v|] == v;
        return buff;
      case _ =>
        return ToString(data);
    }
  }

  /**
   * ToStringMap: a map[string]interface{} is returned as it is; a
   * map[interface{}]interface{} becomes a new map whose keys are ToString of
   * the original keys, each holding the value of one original key that
   * stringifies to it (which one, when several do, depends on Go's map
   * iteration order); anything else yields nil.
   */
  method ToStringMap(data: Dynamic) returns (r: Option<map<ByteString, Dynamic>>)
    ensures data.StrMap? ==> r == Some(data.m)
    ensures data.AnyMap? ==> r.Some? && r.value.Keys == set k | k in data.am :: ToString(k)
    ensures data.AnyMap? ==> forall s :: s in r.value ==> exists k :: k in data.am && ToString(k) == s && data.am[k] == r.value[s]
    ensures !(data.StrMap? || data.AnyMap?) ==> r == None
  {
    var m: map<ByteString, Dynamic> := map[];
    match data {
      case AnyMap(v) =>
        var rest := v.Keys;
        while rest != {}
          invariant rest <= v.Keys
          invariant m.Keys == set k | k in v.Keys - rest :: ToString(k)
          invariant forall s :: s in m ==> exists k :: k in v.Keys - rest && ToString(k) == s && v[k] == m[s]
          decreases rest
        {
          var k :| k in rest;
          m := m[ToString(k) := v[k]];
          rest := rest - {k};
        }
        return Some(m);
      case StrMap(v) =>
        return Some(v);
      case _ =>
        return None;
    }
  }

  /**
   * fmt.Sprint of one value: nil prints as "<nil>", a string as itself, a
   * bool and an integer as ToString does, an error by its Error() text and a
   * Stringer by its String() text; everything else by the %v rendering.
   */
  function Sprint(d: Dynamic): (r: ByteString)
    ensures d.Nil? ==> r == Lit("<nil>")
    ensures d.Str? ==> r == d.s
    ensures d.IsInteger() ==> r == Decimal(d.IntegerValue())
    ensures d.IsInteger() ==> ParseDecimal(r) == Some(d.IntegerValue())
    ensures d.Bool? || d.Error? || d.Stringer? ==> r == ToString(d)
  {
    match d
    case Nil => Lit("<nil>")
    case Error(message) => message
    case Stringer(text) => text
    case _ => if d.Str? || d.Bool? || d.IsInteger() then ToString(d) else FormatV(d)
  }
}
