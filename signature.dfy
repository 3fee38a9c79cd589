/**
  The signature encoder: a `FuncType` becomes the engine's flat signature
  array — result tokens, one marker token, parameter tokens.
*/
module Signature {

  import opened Wrappers
  import opened WasmValues

  /** The engine's internal value-type tokens that the encoder uses.
      `Stmt` (`kWasmStmt`) is the "no value" type, which no `ValKind` maps to. */
  datatype ValueType = Stmt | WasmI32 | WasmI64 | WasmF32 | WasmF64

  /** `kMarker`: an invalid value type separating results from parameters. */
  const Marker: ValueType := Stmt

  /** `wasm_valtype_to_v8`. The reference kinds reach `UNREACHABLE()`, which
      aborts, so callers must not pass them. */
  function ToV8(k: ValKind): (t: ValueType)
    requires k.IsNumeric()
    ensures t != Marker
  {
    match k
    case I32 => WasmI32
    case I64 => WasmI64
    case F32 => WasmF32
    case F64 => WasmF64
  }

  /** The inverse of `wasm_valtype_to_v8` on its image; the marker and any
      other token give nothing. */
  function FromV8(t: ValueType): (k: Option<ValKind>)
    ensures k.Some? ==> k.value.IsNumeric()
  {
    match t
    case Stmt => None
    case WasmI32 => Some(I32)
    case WasmI64 => Some(I64)
    case WasmF32 => Some(F32)
    case WasmF64 => Some(F64)
  }

  /** The four numeric kinds map to four distinct tokens, and `FromV8` undoes
      the mapping exactly. */
  lemma ToV8Inverse(k: ValKind, t: ValueType)
    requires k.IsNumeric()
    ensures FromV8(ToV8(k)) == Some(k)
    ensures FromV8(t) == Some(k) <==> ToV8(k) == t
  {
  }

  lemma ToV8Injective(k1: ValKind, k2: ValKind)
    requires k1.IsNumeric() && k2.IsNumeric()
    ensures ToV8(k1) == ToV8(k2) <==> k1 == k2
  {
  }

  /** Every kind of the list can be encoded. */
  predicate AllNumeric(ks: seq<ValKind>)
  {
    forall i :: 0 <= i < |ks| ==> ks[i].IsNumeric()
  }

  /** A signature `Serialize` accepts without reaching `UNREACHABLE()`. */
  predicate Serializable(t: FuncType)
  {
    AllNumeric(t.Params()) && AllNumeric(t.Results())
  }

  /** `sig_size`, before its `static_cast<int>`. */
  function SigSize(t: FuncType): (n: nat)
  {
    |t.Params()| + |t.Results()| + 1
  }

  const MaxInt: nat := 0x7fff_ffff

  /** Maps a kind list to tokens, element by element. */
  function MapKinds(ks: seq<ValKind>): (ts: seq<ValueType>)
    requires AllNumeric(ks)
    ensures |ts| == |ks|
    ensures forall i :: 0 <= i < |ks| ==> ts[i] == ToV8(ks[i])
  {
    if ks == [] then [] else [ToV8(ks[0])] + MapKinds(ks[1..])
  }

  /** The signature layout: results, marker, parameters. */
  function Encode(t: FuncType): (sig: seq<ValueType>)
    requires Serializable(t)
    ensures |sig| == SigSize(t)
    ensures forall i :: 0 <= i < |t.Results()| ==> sig[i] == ToV8(t.Results()[i])
    ensures sig[|t.Results()|] == Marker
    ensures forall j :: 0 <= j < |t.Params()| ==> sig[|t.Results()| + 1 + j] == ToV8(t.Params()[j])
  {
    MapKinds(t.Results()) + [Marker] + MapKinds(t.Params())
  }

  /** `Serialize`: allocates the signature array and fills it with a running
      index, first the results, then the marker, then the parameters. */
  method Serialize(t: FuncType) returns (sig: array<ValueType>)
    requires Serializable(t)
    requires SigSize(t) <= MaxInt
    ensures fresh(sig)
    ensures sig[..] == Encode(t)
  {
    var results := t.Results();
    var params := t.Params();
    var sigSize := |params| + |results| + 1;
    sig := new ValueType[sigSize];
    var index := 0;
    for i := 0 to |results|
      invariant index == i
      invariant forall j :: 0 <= j < i ==> sig[j] == ToV8(results[j])
    {
      sig[index] := ToV8(results[i]);
      index := index + 1;
    }
    sig[index] := Marker;
    index := index + 1;
    for i := 0 to |params|
      invariant index == |results| + 1 + i
      invariant forall j :: 0 <= j < |results| ==> sig[j] == ToV8(results[j])
      invariant sig[|results|] == Marker
      invariant forall j :: 0 <= j < i ==> sig[|results| + 1 + j] == ToV8(params[j])
    {
      sig[index] := ToV8(params[i]);
      index := index + 1;
    }
    SameLayout(t, sig[..]);
  }

  /** Any array with the `Encode` layout is `Encode(t)`. */
  lemma SameLayout(t: FuncType, s: seq<ValueType>)
    requires Serializable(t)
    requires |s| == SigSize(t)
    requires forall i :: 0 <= i < |t.Results()| ==> s[i] == ToV8(t.Results()[i])
    requires s[|t.Results()|] == Marker
    requires forall j :: 0 <= j < |t.Params()| ==> s[|t.Results()| + 1 + j] == ToV8(t.Params()[j])
    ensures s == Encode(t)
  {
    var e := Encode(t);
    forall i | 0 <= i < |s|
      ensures s[i] == e[i]
    {
      if i > |t.Results()| {
        var j := i - |t.Results()| - 1;
        assert s[|t.Results()| + 1 + j] == e[|t.Results()| + 1 + j];
      }
    }
  }

  // ---------------------------------------------------------------------
  // Reading a signature back: split at the first marker, map tokens back
  // ---------------------------------------------------------------------

  /** Position of the first marker. */
  function FindMarker(sig: seq<ValueType>): (r: Option<nat>)
    ensures r.Some? ==> r.value < |sig| && sig[r.value] == Marker
    ensures r.Some? ==> forall j :: 0 <= j < r.value ==> sig[j] != Marker
    ensures r.None? ==> forall j :: 0 <= j < |sig| ==> sig[j] != Marker
  {
    if sig == [] then None
    else if sig[0] == Marker then Some(0)
    else match FindMarker(sig[1..])
      case None => None
      case Some(p) => Some(p + 1)
  }

  /** Maps tokens back to kinds; fails on any token that is no kind. */
  function UnmapKinds(ts: seq<ValueType>): (r: Option<seq<ValKind>>)
    ensures r.Some? ==> |r.value| == |ts|
  {
    if ts == [] then Some([])
    else match (FromV8(ts[0]), UnmapKinds(ts[1..]))
      case (Some(k), Some(ks)) => Some([k] + ks)
      case _ => None
  }

  /** How the engine reads a flat signature: the tokens before the first
      marker are the results, the tokens after it are the parameters. */
  function Decode(sig: seq<ValueType>): (r: Option<FuncType>)
  {
    match FindMarker(sig)
    case None => None
    case Some(p) =>
      match (UnmapKinds(sig[..p]), UnmapKinds(sig[p + 1..]))
      case (Some(results), Some(params)) => Some(FuncType(params, results))
      case _ => None
  }

  lemma {:induction false} UnmapMapKinds(ks: seq<ValKind>)
    requires AllNumeric(ks)
    ensures UnmapKinds(MapKinds(ks)) == Some(ks)
  {
    if ks != [] {
      UnmapMapKinds(ks[1..]);
      assert MapKinds(ks)[1..] == MapKinds(ks[1..]);
      ToV8Inverse(ks[0], ToV8(ks[0]));
      assert [ks[0]] + ks[1..] == ks;
    }
  }

  lemma {:induction false} MapUnmapKinds(ts: seq<ValueType>, ks: seq<ValKind>)
    requires UnmapKinds(ts) == Some(ks)
    ensures AllNumeric(ks) && MapKinds(ks) == ts
  {
    if ts != [] {
      var k := FromV8(ts[0]).value;
      var rest := UnmapKinds(ts[1..]).value;
      assert ks == [k] + rest;
      MapUnmapKinds(ts[1..], rest);
      assert ks[1..] == rest;
      ToV8Inverse(k, ts[0]);
      assert ks[0].IsNumeric();
      assert forall i :: 1 <= i < |ks| ==> ks[i] == rest[i - 1];
    }
  }

  /** No mapped token is the marker, so the first marker of an encoded
      signature is the one `Serialize` placed between results and params. */
  lemma FirstMarkerOfEncode(t: FuncType)
    requires Serializable(t)
    ensures FindMarker(Encode(t)) == Some(|t.Results()|)
  {
  }

  /** Splitting the serialized signature at its first marker recovers
      exactly the result and parameter lists. */
  lemma {:induction false} DecodeEncode(t: FuncType)
    requires Serializable(t)
    ensures Decode(Encode(t)) == Some(t)
  {
    var sig := Encode(t);
    FirstMarkerOfEncode(t);
    var p := |t.Results()|;
    assert sig[..p] == MapKinds(t.Results());
    assert sig[p + 1..] == MapKinds(t.Params());
    UnmapMapKinds(t.Results());
    UnmapMapKinds(t.Params());
  }

  /** What a successful `Decode` tells about its input. */
  lemma DecodeParts(sig: seq<ValueType>, t: FuncType)
    requires Decode(sig) == Some(t)
    ensures FindMarker(sig).Some?
    ensures UnmapKinds(sig[..FindMarker(sig).value]) == Some(t.Results())
    ensures UnmapKinds(sig[FindMarker(sig).value + 1..]) == Some(t.Params())
  {
  }

  /** Conversely, every array the engine reads as a signature is the
      encoding of that signature: the encoding is onto the decodable arrays. */
  lemma {:induction false} EncodeDecode(sig: seq<ValueType>, t: FuncType)
    requires Decode(sig) == Some(t)
    ensures Serializable(t) && Encode(t) == sig
  {
    DecodeParts(sig, t);
    var p := FindMarker(sig).value;
    MapUnmapKinds(sig[..p], t.Results());
    MapUnmapKinds(sig[p + 1..], t.Params());
    SplitAround(sig, p);
  }

  lemma SplitAround(sig: seq<ValueType>, p: nat)
    requires p < |sig| && sig[p] == Marker
    ensures sig == sig[..p] + [Marker] + sig[p + 1..]
  {
  }

  /** Two signatures encode alike exactly when they are equal. */
  lemma EncodeInjective(t1: FuncType, t2: FuncType)
    requires Serializable(t1) && Serializable(t2)
    ensures Encode(t1) == Encode(t2) <==> t1 == t2
  {
    if Encode(t1) == Encode(t2) {
      DecodeEncode(t1);
      DecodeEncode(t2);
    }
  }

  /** `(params = [I32, F64], results = [I64])` serializes to
      `[I64, marker, I32, F64]`. */
  lemma EncodeExample()
    ensures Encode(FuncType([I32, F64], [I64])) == [WasmI64, Marker, WasmI32, WasmF64]
  {
    SameLayout(FuncType([I32, F64], [I64]), [WasmI64, Marker, WasmI32, WasmF64]);
  }
}
