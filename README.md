# WebAssembly native-import bridge: value model, signature encoder, import registry

This project models the core of a V8 embedding API. The API lets a host register native
callbacks as WebAssembly imports. The model covers three parts:

- **Values** (`values.dfy`, module `WasmValues`). It holds the `ValKind` tag and its
  `uint8_t` encoding (I32=0, I64=1, F32=2, F64=3, ANYREF=128, FUNCREF=129). It holds the
  tagged `Val` with its public constructors and tag-checked accessors. It holds the
  `Memory` view (page count and base pointer, size = pages × 64 KiB, computed in a
  64-bit `size_t`). It also holds the immutable `FuncType` and the `Func` pair of
  signature and callback. These are C++ classes whose fields never change after
  construction, so they are datatypes here.
- **Signature encoder** (`signature.dfy`, module `Signature`). `wasm_valtype_to_v8`
  is a partial map from the four numeric kinds to engine tokens. `Serialize` fills a
  fresh array: results in order, then the marker `kWasmStmt`, then parameters in
  order. `Serialize` is an imperative method over an `array`, proved equal to the
  specification function `Encode`. `Decode` reads a signature back by splitting at
  the first marker. It is the partner of `Encode`, and both round trips are proved.
- **Import registry** (`registry.dfy`, module `NativeImports`). The isolate's
  native-imports root is modelled as a two-level map, module name → import name →
  preload function. The root is created lazily. `Isolate.PreloadNative` follows the
  source step by step. It is proved equal to the pure update `Register`, and the
  lemmas about `Register` state lookup, frame, bucket reuse, overwrite and
  commutation.

`wrappers.dfy` holds the `Option` type.

Notes on the program's own files:

- `Val` has no reference accessor. Only `i32`, `i64`, `f32` and `f64` exist
  (src/api/api-wasm.h:68-71), so a stored reference is never read back through the
  public interface.
- The header declares `PreloadNative` with three arguments and `Func` holding a
  `FuncType` by value. The implementation file takes four arguments (isolate, module
  name, import name, `Func*`) and holds a `const FuncType*`. The model follows the
  implementation. Because a `FuncType` has no mutators, the pointed-to signature is
  modelled as a value.

## Model

| member | source | states |
|---|---|---|
| WasmValues.NewMemory | src/api/api-wasm.h:22-25 | `pages()` and `data()` return the constructor arguments unchanged |
| WasmValues.Memory.Size | src/api/api-wasm.cc:25 | the byte size, computed in `size_t`, is always a whole number of 64 KiB pages |
| WasmValues.SizeIsPagesTimesPageSize | src/api/api-wasm.h:16-23 | below 2^48 pages, `size()` is exactly pages × 0x10000 and dividing it by the page size gives back the page count |
| WasmValues.SizeWraps | src/api/api-wasm.cc:25 | in general `size()` wraps modulo 2^64, so size / 0x10000 is the page count modulo 2^48 |
| WasmValues.KindCode | src/api/api-wasm.h:37-44 | the numeric kinds have the enumerator values 0 to 3 and the reference kinds 128 and 129 |
| WasmValues.KindOfCode | src/api/api-wasm.h:37-44 | reading a byte as a `ValKind` gives a kind only when that kind's enumerator value is the byte |
| WasmValues.KindCodeRoundTrip | src/api/api-wasm.h:37-44 | the enumerator values are injective and decode back to their kind, and exactly the reference kinds have values of 128 or more |
| WasmValues.Val.Kind | src/api/api-wasm.cc:49 | `kind()` returns the tag, and for a consistent value the tag is a reference kind exactly when the stored member is the pointer |
| WasmValues.Val.AsI32 | src/api/api-wasm.cc:50 | `i32()` requires the tag I32, as its `assert` does, and the value read is the one `Val(int32_t)` stored: an I32 value is rebuilt exactly from it |
| WasmValues.Val.AsI64 | src/api/api-wasm.cc:51 | `i64()` requires the tag I64, as its `assert` does, and an I64 value is rebuilt exactly from the integer read |
| WasmValues.Val.AsF32 | src/api/api-wasm.cc:52 | `f32()` requires the tag F32, as its `assert` does, and an F32 value is rebuilt exactly from the bit pattern read |
| WasmValues.Val.AsF64 | src/api/api-wasm.cc:53 | `f64()` requires the tag F64, as its `assert` does, and an F64 value is rebuilt exactly from the bit pattern read |
| WasmValues.DefaultVal | src/api/api-wasm.h:60 | `Val()` is an ANYREF holding the null reference |
| WasmValues.FromI32 | src/api/api-wasm.cc:43-50 | `Val(int32_t)` has kind I32, and `i32()` (which requires kind I32) returns the stored integer |
| WasmValues.FromI64 | src/api/api-wasm.cc:44-51 | `Val(int64_t)` has kind I64, and `i64()` (which requires kind I64) returns the stored integer |
| WasmValues.FromF32 | src/api/api-wasm.cc:45-52 | `Val(float)` has kind F32, and `f32()` (which requires kind F32) returns the stored bit pattern |
| WasmValues.FromF64 | src/api/api-wasm.cc:46-53 | `Val(double)` has kind F64, and `f64()` (which requires kind F64) returns the stored bit pattern |
| WasmValues.FromRef | src/api/api-wasm.cc:47 | `Val(void*)` has kind ANYREF and holds the given reference |
| WasmValues.ConstructNeverFuncRef | src/api/api-wasm.h:59-65 | every public constructor yields a value whose union member matches its tag, and none yields FUNCREF |
| WasmValues.ConstructInjective | src/api/api-wasm.h:60-65 | two public constructor calls give the same value iff they are the same call, or they are `Val()` and `Val(NULL)` |
| WasmValues.NewFuncType | src/api/api-wasm.cc:55-60 | `params()` and `results()` return the lists given at construction, order preserved |
| WasmValues.FuncTypeEquality | src/api/api-wasm.h:74-83 | two signatures are equal iff their parameter lists and result lists agree position by position |
| Signature.ToV8 | src/api/api-wasm.cc:74-88 | `wasm_valtype_to_v8` is defined on I32, I64, F32 and F64 only (reference kinds reach `UNREACHABLE()`), and never yields the marker |
| Signature.FromV8 | src/api/api-wasm.cc:74-88 | reading a token back yields only numeric kinds, since no reference kind has a token |
| Signature.ToV8Inverse | src/api/api-wasm.cc:74-88 | the token map is undone exactly by `FromV8`, in both directions |
| Signature.ToV8Injective | src/api/api-wasm.cc:74-88 | the four numeric kinds map to four distinct tokens |
| Signature.MapKinds | src/api/api-wasm.cc:106-108 | mapping a kind list keeps its length, and position i holds the token of kind i |
| Signature.Encode | src/api/api-wasm.cc:97-115 | the layout has length params + results + 1, with result tokens at 0..results-1, the marker at index results, and parameter tokens after it |
| Signature.Serialize | src/api/api-wasm.cc:94-118 | the freshly allocated array, filled with a running index over two loops, holds exactly that layout |
| Signature.FindMarker | src/api/api-wasm.cc:91-92 | finds the first marker: every earlier token is not the marker, and no marker means none is found |
| Signature.UnmapMapKinds | src/api/api-wasm.cc:106-114 | mapping a numeric kind list to tokens and back gives the list |
| Signature.MapUnmapKinds | src/api/api-wasm.cc:106-114 | a token list that maps back to kinds is the mapping of those kinds, which are all numeric |
| Signature.FirstMarkerOfEncode | src/api/api-wasm.cc:91-92 | because no kind maps to the marker, the first marker of an encoded signature is the one placed between results and parameters |
| Signature.DecodeEncode | src/api/api-wasm.cc:104-115 | splitting the serialized signature at its first marker recovers exactly the results and the parameters |
| Signature.EncodeDecode | src/api/api-wasm.cc:104-115 | every array that splits into a valid signature is that signature's encoding |
| Signature.EncodeInjective | src/api/api-wasm.cc:104-115 | two signatures serialize alike iff they are equal |
| Signature.EncodeExample | src/api/api-wasm.cc:104-115 | params [I32, F64] and results [I64] serialize to [I64, marker, I32, F64] |
| WasmValues.NewFunc | src/api/api-wasm.cc:62-72 | `type()` and `callback()` return the signature and the callback the `Func` was built from |
| NativeImports.EntryFor | src/api/api-wasm.cc:162-165 | the preload function carries the `Func`'s callback and a signature that decodes to the `Func`'s type |
| NativeImports.Register | src/api/api-wasm.cc:129-166 | the modules afterwards are the old ones plus the named one; the named slot holds the new entry; every other module keeps its old object; every old name of the named module other than the registered one survives with its old entry, and no other name appears |
| NativeImports.RegisterResolves | src/api/api-wasm.cc:162-166 | after registration, (module, name) resolves to the new entry |
| NativeImports.RegisterFrame | src/api/api-wasm.cc:148-166 | every other name in the module, and every name in other modules, resolves as before |
| NativeImports.RegisterModules | src/api/api-wasm.cc:129-159 | the modules afterwards are the old ones plus the named one, and an absent root becomes a root holding only the new entry |
| NativeImports.RegisterReusesBucket | src/api/api-wasm.cc:151-153 | an existing module object is reused, keeping its other names, with only the one slot set |
| NativeImports.RegisterOverwrites | src/api/api-wasm.cc:166 | registering the same (module, name) again leaves only the last entry |
| NativeImports.RegisterCommutes | src/api/api-wasm.cc:149-166 | registrations under different keys give the same registry in either order |
| NativeImports.Isolate.constructor | src/api/api-wasm.cc:129-130 | a new isolate's native-imports handle is empty |
| NativeImports.Isolate.PreloadNative | src/api/api-wasm.cc:120-172 | the isolate's root becomes `Register` of the old root with the entry built from the callback and `Serialize` of the type, created if it was absent |

## Left out

- `Context` only stores pointers and calls `Isolate::GetCurrent()`, a foreign call. It is not part of this model.
- The `puts`/`printf` tracing in `Serialize` and `PreloadNative` has no effect on state and is not modelled.
- The V8 heap machinery (`HandleScope`, handles, `LookupIterator`, `NewStringFromAsciiChecked`, `SetProperty`, `WasmPreloadFunction::New`) is modelled only by what it does: a two-level map and an opaque (callback address, signature) entry. The `nullptr` embedder data passed to `WasmPreloadFunction::New` is omitted.
- Register / Isolate.PreloadNative: module and import names are plain map keys. In the source they are property names set with `Object::SetProperty` on plain JavaScript objects and found by an own-property lookup. JavaScript property semantics for special keys are not captured: `__proto__` would reach the `Object.prototype` setter and create no own property, and integer-index strings are element keys. The C-string and one-byte conversion through `NewStringFromAsciiChecked` is not captured either, so names with embedded NUL or characters wider than one byte are accepted here.
- Isolate.PreloadNative: the identity of the module object is not modelled. The source sets the property on an object that the root also refers to. The model writes the updated map back into the root, which has the same result, but aliasing is not captured.
- The final `assert` of `PreloadNative` (the handle read back equals the one set) holds trivially in a value model.
- Memory.Size: `size_t` and pointers are taken to be 64 bits wide. On a 32-bit host the size wraps modulo 2^32 instead (65536 pages report 0 bytes), and the 2^48-page bound of SizeIsPagesTimesPageSize becomes 2^16.
- Float semantics: `float` and `double` payloads are their IEEE-754 bit patterns. No floating-point arithmetic is done.
- The native callback is an address. Its invocation, and the argument/result buffer trampoline that calls it, are not part of the shown code and are not modelled.
- `include/v8-wasm.h` holds declarations only.
- Only the engine value-type tokens the encoder uses are modelled: `kWasmStmt` and the four numeric tokens. Other tokens of the engine's `ValueType` are not part of this model.
- Val.AsI32, Val.AsI64, Val.AsF32, Val.AsF64: besides the tag check the source asserts, these also require the union's active member to match the tag. Reading an inactive C++ union member is undefined, and every public constructor establishes the match. Type punning through the private `Val(kind, value)` constructor is not modelled.
- Serialize: requires params + results + 1 to fit in a C++ `int`, because the source narrows `sig_size` with `static_cast<int>`. Truncation for larger signatures is not modelled.
- Isolate.PreloadNative: requires a signature that `Serialize` accepts. A reference kind reaches `UNREACHABLE()` and aborts the process, so the model treats it as a precondition rather than an error result.
- Concurrency: there is none in the code. Concurrent registration is left to the embedder.
