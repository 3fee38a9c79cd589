/**
  The value and signature model of the WebAssembly native-import bridge:
  the fixed-width integer types of the C++ interface, the linear-memory view,
  the value-kind tag, the tagged value and the function type.
*/
module WasmValues {

  import opened Wrappers

  // ---------------------------------------------------------------------
  // Fixed-width machine types of the C++ interface
  // ---------------------------------------------------------------------

  newtype uint8 = x: int | 0 <= x < 0x100
  newtype int32 = x: int | -0x8000_0000 <= x < 0x8000_0000
  newtype int64 = x: int | -0x8000_0000_0000_0000 <= x < 0x8000_0000_0000_0000
  newtype uint64 = x: int | 0 <= x < 0x1_0000_0000_0000_0000

  /** `size_t` on a 64-bit host. */
  type SizeT = uint64

  /** A host pointer (`uint8_t*`, `void*`), as its 64-bit address; 0 is NULL. */
  type Address = uint64

  const Null: Address := 0

  /** `float` and `double` payloads are kept as their IEEE-754 bit patterns. */
  type Float32Bits = bv32
  type Float64Bits = bv64

  /** `PAGE_SIZE`: the 64 KiB WebAssembly page. */
  const PageSize: nat := 0x10000

  const SizeTModulus: nat := 0x1_0000_0000_0000_0000

  // ---------------------------------------------------------------------
  // Memory: a non-owning (page count, base pointer) view of linear memory
  // ---------------------------------------------------------------------

  datatype Memory = Memory(pages: SizeT, data: Address)
  {
    /** Byte size of the view: `pages * PAGE_SIZE`, computed in `size_t`,
        so it wraps modulo 2^64. */
    function Size(): (r: SizeT)
      ensures r as int % PageSize == 0
    {
      ((pages as int * PageSize) % SizeTModulus) as SizeT
    }

    function Pages(): (p: SizeT) { pages }

    function Data(): (d: Address) { data }
  }

  /** The constructor `Memory(pages, data)`: the accessors give back exactly
      what the view was built from. */
  function NewMemory(pages: SizeT, data: Address): (m: Memory)
    ensures m.Pages() == pages && m.Data() == data
  {
    Memory(pages, data)
  }

  /** A view of fewer than 2^48 pages (every WebAssembly memory) has a byte
      size of exactly pages * 64 KiB, and the page count is recovered from it. */
  lemma SizeIsPagesTimesPageSize(m: Memory)
    requires m.Pages() as int < 0x1_0000_0000_0000
    ensures m.Size() as int == m.Pages() as int * PageSize
    ensures m.Size() as int / PageSize == m.Pages() as int
  {
  }

  /** Page count beyond 2^48: the size wraps; what survives is the page
      count modulo 2^48. */
  lemma SizeWraps(m: Memory)
    ensures m.Size() as int / PageSize == m.Pages() as int % 0x1_0000_0000_0000
  {
  }

  // ---------------------------------------------------------------------
  // ValKind: `enum ValKind : uint8_t`
  // ---------------------------------------------------------------------

  datatype ValKind = I32 | I64 | F32 | F64 | AnyRef | FuncRef
  {
    /** The numeric kinds; ANYREF and FUNCREF are the reference kinds. */
    predicate IsNumeric() { I32? || I64? || F32? || F64? }

    /** The reference kinds share the pointer member of the union. */

    predicate IsRef() { AnyRef? || FuncRef? }
  }

  /** The enumerator values of `ValKind`: the numeric kinds count up from 0,
      the reference kinds from 128. */
  function KindCode(k: ValKind): (c: uint8)
    ensures k.IsNumeric() <==> c < 4
    ensures k.IsRef() <==> 128 <= c < 130
  {
    match k
    case I32 => 0
    case I64 => 1
    case F32 => 2
    case F64 => 3
    case AnyRef => 128
    case FuncRef => 129
  }

  /** Reading a `uint8_t` back as a `ValKind`; other bytes name no kind. */
  function KindOfCode(c: uint8): (k: Option<ValKind>)
    ensures k.Some? ==> KindCode(k.value) == c
  {
    if c == 0 then Some(I32)
    else if c == 1 then Some(I64)
    else if c == 2 then Some(F32)
    else if c == 3 then Some(F64)
    else if c == 128 then Some(AnyRef)
    else if c == 129 then Some(FuncRef)
    else None
  }

  /** The encoding is injective, decodable, and puts the reference kinds at
      128 and above, the numeric kinds below. */
  lemma KindCodeRoundTrip(k: ValKind, c: uint8)
    ensures KindOfCode(KindCode(k)) == Some(k)
    ensures KindOfCode(c) == Some(k) <==> KindCode(k) == c
    ensures k.IsRef() <==> KindCode(k) >= 128
  {
  }

  // ---------------------------------------------------------------------
  // Val: a kind tag over `union value { i32; i64; f32; f64; ref; }`
  // ---------------------------------------------------------------------

  /** The union, by its active member (the one last written). */
  datatype Value =
    | I32Bits(i32: int32)
    | I64Bits(i64: int64)
    | F32Bits(f32: Float32Bits)
    | F64Bits(f64: Float64Bits)
    | RefBits(ref: Address)

  /** `Val(kind, value)` is the private constructor: it stores both parts as
      given. */
  datatype Val = Val(kind: ValKind, value: Value)
  {
    /** `kind()`: for a consistent value, the tag says which union member
        can be read — the reference member exactly for the reference kinds. */
    function Kind(): (k: ValKind)
      ensures Consistent() ==> (k.IsRef() <==> value.RefBits?)
    {
      kind
    }

    /** The union's active member is the one the tag names (the reference
        member for both reference kinds). Reading any other member of a C++
        union is undefined, so the accessors demand this. */
    predicate Consistent()
    {
      match kind
      case I32 => value.I32Bits?
      case I64 => value.I64Bits?
      case F32 => value.F32Bits?
      case F64 => value.F64Bits?
      case AnyRef => value.RefBits?
      case FuncRef => value.RefBits?
    }

    /** `i32()`: a check that the tag is I32, then the payload; the value read is the
        one the `Val(int32_t)` constructor stored. */
    function AsI32(): (i: int32)
      requires Consistent() && kind == I32
      ensures this == Val(I32, I32Bits(i))
    {
      value.i32
    }

    /** `i64()`: a check that the tag is I64, then the payload; the value read is the
        one the `Val(int64_t)` constructor stored. */
    function AsI64(): (i: int64)
      requires Consistent() && kind == I64
      ensures this == Val(I64, I64Bits(i))
    {
      value.i64
    }

    /** `f32()`: a check that the tag is F32, then the payload; the value read is the
        one the `Val(float)` constructor stored. */
    function AsF32(): (f: Float32Bits)
      requires Consistent() && kind == F32
      ensures this == Val(F32, F32Bits(f))
    {
      value.f32
    }

    /** `f64()`: a check that the tag is F64, then the payload; the value read is the
        one the `Val(double)` constructor stored. */
    function AsF64(): (f: Float64Bits)
      requires Consistent() && kind == F64
      ensures this == Val(F64, F64Bits(f))
    {
      value.f64
    }
  }

  /** `Val()`: the null reference. */
  function DefaultVal(): (v: Val)
    ensures v.Consistent() && v.Kind() == AnyRef && v.value.ref == Null
  {
    Val(AnyRef, RefBits(Null))
  }

  /** `Val(int32_t)`. */
  function FromI32(i: int32): (v: Val)
    ensures v.Consistent() && v.Kind() == I32 && v.AsI32() == i
  {
    Val(I32, I32Bits(i))
  }

  /** `Val(int64_t)`. */
  function FromI64(i: int64): (v: Val)
    ensures v.Consistent() && v.Kind() == I64 && v.AsI64() == i
  {
    Val(I64, I64Bits(i))
  }

  /** `Val(float)`. */
  function FromF32(f: Float32Bits): (v: Val)
    ensures v.Consistent() && v.Kind() == F32 && v.AsF32() == f
  {
    Val(F32, F32Bits(f))
  }

  /** `Val(double)`. */
  function FromF64(f: Float64Bits): (v: Val)
    ensures v.Consistent() && v.Kind() == F64 && v.AsF64() == f
  {
    Val(F64, F64Bits(f))
  }

  /** `Val(void*)`: always ANYREF. */
  function FromRef(r: Address): (v: Val)
    ensures v.Consistent() && v.Kind() == AnyRef && v.value.ref == r
  {
    Val(AnyRef, RefBits(r))
  }

  /** The public constructors of `Val`, as a call a client can make. */
  datatype Construction =
    | Default
    | OfI32(i32: int32)
    | OfI64(i64: int64)
    | OfF32(f32: Float32Bits)
    | OfF64(f64: Float64Bits)
    | OfRef(ref: Address)

  function Construct(c: Construction): (v: Val)
  {
    match c
    case Default => DefaultVal()
    case OfI32(i) => FromI32(i)
    case OfI64(i) => FromI64(i)
    case OfF32(f) => FromF32(f)
    case OfF64(f) => FromF64(f)
    case OfRef(r) => FromRef(r)
  }

  /** Every publicly built value is consistent and none is a FUNCREF. */
  lemma ConstructNeverFuncRef(c: Construction)
    ensures Construct(c).Consistent()
    ensures Construct(c).Kind() != FuncRef
  {
  }

  /** Public constructors yield the same value only when they are the same
      call, or the default constructor and `Val(NULL)`. */
  lemma ConstructInjective(c1: Construction, c2: Construction)
    ensures Construct(c1) == Construct(c2)
        <==> c1 == c2 || (c1 in {Default, OfRef(Null)} && c2 in {Default, OfRef(Null)})
  {
  }

  // ---------------------------------------------------------------------
  // FuncType and Func
  // ---------------------------------------------------------------------

  /** An immutable signature: ordered parameter and result kinds. */
  datatype FuncType = FuncType(params: seq<ValKind>, results: seq<ValKind>)
  {
    function Params(): (ps: seq<ValKind>) { params }

    function Results(): (rs: seq<ValKind>) { results }
  }

  /** The constructor `FuncType(params, results)`: both lists come back
      unchanged, order preserved. */
  function NewFuncType(params: seq<ValKind>, results: seq<ValKind>): (t: FuncType)
    ensures t.Params() == params && t.Results() == results
  {
    FuncType(params, results)
  }

  /** Two signatures are equal exactly when their parameter and result lists
      agree position by position. */
  lemma FuncTypeEquality(a: FuncType, b: FuncType)
    ensures a == b <==>
      && |a.Params()| == |b.Params()|
      && |a.Results()| == |b.Results()|
      && (forall i :: 0 <= i < |a.Params()| ==> a.Params()[i] == b.Params()[i])
      && (forall i :: 0 <= i < |a.Results()| ==> a.Results()[i] == b.Results()[i])
  {
  }

  /** The native callback is a function pointer; only its address matters here. */
  type Callback = Address

  /** `Func`: a signature paired with a native callback. */
  datatype Func = Func(funcType: FuncType, callback: Callback)
  {
    function Type(): (t: FuncType) { funcType }

    function CallbackOf(): (cb: Callback) { callback }
  }

  /** The constructor `Func(funcType, cb)`: `type()` and `callback()` give
      back the signature and the callback it was built from. */
  function NewFunc(funcType: FuncType, cb: Callback): (f: Func)
    ensures f.Type() == funcType && f.CallbackOf() == cb
  {
    Func(funcType, cb)
  }
}
