/**
  The import registry behind `PreloadNative`: per isolate, a lazily created
  root object mapping module names to module objects, which map import names
  to preload functions.
*/
module NativeImports {

  import opened Wrappers
  import opened WasmValues
  import opened Signature

  type Name = string

  /** What `WasmPreloadFunction::New` is given: the callback's address and
      the serialized signature. */
  datatype PreloadFunction = PreloadFunction(callback: Callback, sig: seq<ValueType>)

  /** A module object: import name to preload function. */
  type Bucket = map<Name, PreloadFunction>

  /** The imports root: module name to module object. */
  type Registry = map<Name, Bucket>

  /** The entry `PreloadNative` builds for a `Func`. */
  function EntryFor(f: Func): (e: PreloadFunction)
    requires Serializable(f.Type())
    ensures e.callback == f.CallbackOf()
    ensures Decode(e.sig) == Some(f.Type())
  {
    DecodeEncode(f.Type());
    PreloadFunction(f.CallbackOf(), Encode(f.Type()))
  }

  /** The root as seen after lazy creation: an absent root is an empty one. */
  function RootOf(imports: Option<Registry>): (root: Registry)
  {
    if imports.None? then map[] else imports.value
  }

  /** The module loader's query: the entry under (module, name), if any. */
  function Resolve(imports: Option<Registry>, moduleName: Name, name: Name): (r: Option<PreloadFunction>)
  {
    var root := RootOf(imports);
    if moduleName in root && name in root[moduleName] then Some(root[moduleName][name]) else None
  }

  /** The root after registering `e` under (moduleName, name): the module
      object is looked up or created, then the name slot is set. */
  function Register(imports: Option<Registry>, moduleName: Name, name: Name, e: PreloadFunction): (r: Registry)
    ensures r.Keys == RootOf(imports).Keys + {moduleName}
    ensures name in r[moduleName] && r[moduleName][name] == e
    ensures forall m :: m in r && m != moduleName ==> r[m] == RootOf(imports)[m]
    ensures forall n :: n in r[moduleName] && n != name ==>
      moduleName in RootOf(imports) && n in RootOf(imports)[moduleName] && r[moduleName][n] == RootOf(imports)[moduleName][n]
    ensures forall n :: moduleName in RootOf(imports) && n in RootOf(imports)[moduleName] && n != name ==>
      n in r[moduleName] && r[moduleName][n] == RootOf(imports)[moduleName][n]
  {
    var root := RootOf(imports);
    var bucket := if moduleName in root then root[moduleName] else map[];
    root[moduleName := bucket[name := e]]
  }

  /** After registering, the key resolves to the new entry. */
  lemma RegisterResolves(imports: Option<Registry>, moduleName: Name, name: Name, e: PreloadFunction)
    ensures Resolve(Some(Register(imports, moduleName, name, e)), moduleName, name) == Some(e)
  {
  }

  /** Every other key, in this module or another, resolves as before. */
  lemma RegisterFrame(imports: Option<Registry>, moduleName: Name, name: Name, e: PreloadFunction,
                      m: Name, n: Name)
    requires m != moduleName || n != name
    ensures Resolve(Some(Register(imports, moduleName, name, e)), m, n) == Resolve(imports, m, n)
  {
  }

  /** The modules present are the old ones plus `moduleName`; the root is
      created only when absent, so no registered module is dropped. */
  lemma RegisterModules(imports: Option<Registry>, moduleName: Name, name: Name, e: PreloadFunction)
    ensures Register(imports, moduleName, name, e).Keys == RootOf(imports).Keys + {moduleName}
    ensures imports.None? ==> Register(imports, moduleName, name, e) == map[moduleName := map[name := e]]
  {
  }

  /** An existing module object is reused: it keeps all its other names. */
  lemma RegisterReusesBucket(imports: Option<Registry>, moduleName: Name, name: Name, e: PreloadFunction)
    requires moduleName in RootOf(imports)
    ensures Register(imports, moduleName, name, e)[moduleName] == RootOf(imports)[moduleName][name := e]
    ensures Register(imports, moduleName, name, e)[moduleName].Keys == RootOf(imports)[moduleName].Keys + {name}
  {
  }

  /** Registering the same key again overwrites: only the last entry is kept. */
  lemma {:induction false} RegisterOverwrites(imports: Option<Registry>, moduleName: Name, name: Name,
                                              e1: PreloadFunction, e2: PreloadFunction)
    ensures Register(Some(Register(imports, moduleName, name, e1)), moduleName, name, e2)
         == Register(imports, moduleName, name, e2)
  {
    var root := RootOf(imports);
    var bucket := if moduleName in root then root[moduleName] else map[];
    assert bucket[name := e1][name := e2] == bucket[name := e2];
  }

  /** Registrations under different keys do not interfere, in either order. */
  lemma {:induction false} RegisterCommutes(imports: Option<Registry>,
                                            m1: Name, n1: Name, e1: PreloadFunction,
                                            m2: Name, n2: Name, e2: PreloadFunction)
    requires m1 != m2 || n1 != n2
    ensures Register(Some(Register(imports, m1, n1, e1)), m2, n2, e2)
         == Register(Some(Register(imports, m2, n2, e2)), m1, n1, e1)
  {
    var root := RootOf(imports);
    var b1: Bucket := if m1 in root then root[m1] else map[];
    var b2: Bucket := if m2 in root then root[m2] else map[];
    var r1 := Register(imports, m1, n1, e1);
    var r2 := Register(imports, m2, n2, e2);
    if m1 == m2 {
      UpdateTwice(root, m1, b1[n1 := e1], b1[n1 := e1][n2 := e2]);
      UpdateTwice(root, m1, b1[n2 := e2], b1[n2 := e2][n1 := e1]);
      UpdatesCommute(b1, n1, e1, n2, e2);
    } else {
      assert r1 == root[m1 := b1[n1 := e1]] && (if m2 in r1 then r1[m2] else map[]) == b2;
      assert r2 == root[m2 := b2[n2 := e2]] && (if m1 in r2 then r2[m1] else map[]) == b1;
      UpdatesCommute(root, m1, b1[n1 := e1], m2, b2[n2 := e2]);
    }
  }

  /** Updates of two different keys commute. */
  lemma UpdatesCommute<K, V>(m: map<K, V>, k1: K, v1: V, k2: K, v2: V)
    requires k1 != k2
    ensures m[k1 := v1][k2 := v2] == m[k2 := v2][k1 := v1]
  {
  }

  /** Setting a key twice keeps the second value. */
  lemma UpdateTwice<K, V>(m: map<K, V>, k: K, v1: V, v2: V)
    ensures m[k := v1][k := v2] == m[k := v2]
  {
  }

  /** The isolate's native-imports slot (`wasm_native_imports()`), an
      `Eternal` handle that stays empty until the first registration. */
  class Isolate
  {
    var nativeImports: Option<Registry>

    constructor ()
      ensures nativeImports == None
    {
      nativeImports := None;
    }

    /** `PreloadNative(isolate, module_name, name, import)`. */
    method PreloadNative(moduleName: Name, name: Name, func: Func)
      requires Serializable(func.Type())
      requires SigSize(func.Type()) <= MaxInt
      modifies this
      ensures nativeImports == Some(Register(old(nativeImports), moduleName, name, EntryFor(func)))
    {
      var imports := nativeImports;
      if imports.None? {
        imports := Some(map[]);
      }
      var root := imports.value;
      var moduleObj: Bucket;
      if moduleName in root {
        moduleObj := root[moduleName];
      } else {
        moduleObj := map[];
        root := root[moduleName := moduleObj];
      }
      var sig := Serialize(func.Type());
      var callback := PreloadFunction(func.CallbackOf(), sig[..]);
      // The module object is shared with the root, so setting its property
      // is seen through the root.
      moduleObj := moduleObj[name := callback];
      if moduleName !in imports.value {
        // The empty module object stored first is replaced by the filled
        // one: the two writes amount to `Register`'s single update.
        UpdateTwice(imports.value, moduleName, map[], moduleObj);
      }
      root := root[moduleName := moduleObj];
      nativeImports := Some(root);
    }
  }

  /** Registering `f1` under env.f1 with callback A, then with callback B,
      then `f2` with callback C: env.f1 resolves to B, env.f2 to C. */
  method RegistryScenario(a: Callback, b: Callback, c: Callback, t: FuncType)
    requires Serializable(t) && SigSize(t) <= MaxInt
  {
    var isolate := new Isolate();
    var entryA, entryB, entryC := EntryFor(Func(t, a)), EntryFor(Func(t, b)), EntryFor(Func(t, c));
    isolate.PreloadNative("env", "f1", Func(t, a));
    isolate.PreloadNative("env", "f1", Func(t, b));
    RegisterOverwrites(None, "env", "f1", entryA, entryB);
    var afterB := isolate.nativeImports;
    assert afterB == Some(map["env" := map["f1" := entryB]]);
    isolate.PreloadNative("env", "f2", Func(t, c));
    RegisterFrame(afterB, "env", "f2", entryC, "env", "f1");
    RegisterResolves(afterB, "env", "f2", entryC);
    assert Resolve(isolate.nativeImports, "env", "f1") == Some(entryB);
    assert Resolve(isolate.nativeImports, "env", "f2") == Some(entryC);
    assert isolate.nativeImports.value == map["env" := map["f1" := entryB, "f2" := entryC]];
  }
}
