/**
 * A plain JavaScript object used as a string-keyed dictionary, as the
 * application keeps it in localStorage through JSON: a sequence of
 * (key, value) entries in insertion order (the order `Object.entries`
 * and `JSON.stringify` follow for non-numeric keys). `obj[k] = v`
 * overwrites in place or appends; `delete obj[k]` removes the entry.
 */
module JsObject {
  import opened Wrappers

  type Entries<V> = seq<(string, V)>

  /** `k` is an own key of the object. */
  predicate HasKey<V>(e: Entries<V>, k: string) {
    |e| > 0 && (e[0].0 == k || HasKey(e[1..], k))
  }

  /** No key appears twice, as in any JavaScript object. */
  predicate UniqueKeys<V>(e: Entries<V>) {
    |e| == 0 || (!HasKey(e[1..], e[0].0) && UniqueKeys(e[1..]))
  }

  /** `obj[k]` for an own key; `None` stands for `undefined`. */
  function Get<V>(e: Entries<V>, k: string): (r: Option<V>)
    ensures r.Some? <==> HasKey(e, k)
  {
    if |e| == 0 then None
    else if e[0].0 == k then Some(e[0].1)
    else Get(e[1..], k)
  }

  /** `obj[k] = v`: overwrite the entry in place, or append a new one at the end. */
  function Put<V>(e: Entries<V>, k: string, v: V): (r: Entries<V>)
    ensures HasKey(e, k) ==> |r| == |e|
    ensures !HasKey(e, k) ==> r == e + [(k, v)]
  {
    if |e| == 0 then [(k, v)]
    else if e[0].0 == k then [(k, v)] + e[1..]
    else [e[0]] + Put(e[1..], k, v)
  }

  /** `delete obj[k]`. */
  function Delete<V>(e: Entries<V>, k: string): (r: Entries<V>)
    ensures |r| <= |e|
  {
    if |e| == 0 then []
    else if e[0].0 == k then Delete(e[1..], k)
    else [e[0]] + Delete(e[1..], k)
  }

  /** After `obj[k] = v`, reading `obj[k]` gives `v`. */
  lemma {:induction false} GetPutSame<V>(e: Entries<V>, k: string, v: V)
    ensures Get(Put(e, k, v), k) == Some(v)
  {
    if |e| > 0 && e[0].0 != k {
      GetPutSame(e[1..], k, v);
      assert Put(e, k, v)[1..] == Put(e[1..], k, v);
    }
  }

  /** `obj[k] = v` leaves every other key's value as it was. */
  lemma {:induction false} GetPutOther<V>(e: Entries<V>, k: string, v: V, k': string)
    requires k' != k
    ensures Get(Put(e, k, v), k') == Get(e, k')
  {
    if |e| > 0 {
      if e[0].0 == k {
        assert Put(e, k, v)[1..] == e[1..];
      } else {
        GetPutOther(e[1..], k, v, k');
        assert Put(e, k, v)[1..] == Put(e[1..], k, v);
      }
    }
  }

  lemma {:induction false} HasKeyPut<V>(e: Entries<V>, k: string, v: V, k': string)
    ensures HasKey(Put(e, k, v), k') <==> HasKey(e, k') || k' == k
  {
    if |e| > 0 {
      if e[0].0 == k {
        assert Put(e, k, v)[1..] == e[1..];
      } else {
        HasKeyPut(e[1..], k, v, k');
        assert Put(e, k, v)[1..] == Put(e[1..], k, v);
      }
    }
  }

  /** An existing key keeps its position and every other entry is untouched. */
  lemma {:induction false} PutInPlace<V>(e: Entries<V>, k: string, v: V)
    requires HasKey(e, k)
    ensures forall j :: 0 <= j < |e| ==> Put(e, k, v)[j].0 == e[j].0
    ensures forall j :: 0 <= j < |e| && e[j].0 != k ==> Put(e, k, v)[j] == e[j]
  {
    if e[0].0 != k {
      PutInPlace(e[1..], k, v);
      assert Put(e, k, v)[1..] == Put(e[1..], k, v);
    }
  }

  /** Object keys stay unique under `obj[k] = v`. */
  lemma {:induction false} PutKeepsUnique<V>(e: Entries<V>, k: string, v: V)
    requires UniqueKeys(e)
    ensures UniqueKeys(Put(e, k, v))
  {
    if |e| > 0 && e[0].0 != k {
      PutKeepsUnique(e[1..], k, v);
      HasKeyPut(e[1..], k, v, e[0].0);
      assert Put(e, k, v)[1..] == Put(e[1..], k, v);
    } else if |e| > 0 {
      assert Put(e, k, v)[1..] == e[1..];
    }
  }

  lemma {:induction false} HasKeyDelete<V>(e: Entries<V>, k: string, k': string)
    ensures HasKey(Delete(e, k), k') <==> HasKey(e, k') && k' != k
  {
    if |e| > 0 {
      HasKeyDelete(e[1..], k, k');
      if e[0].0 != k {
        assert Delete(e, k)[1..] == Delete(e[1..], k);
      }
    }
  }

  /** After `delete obj[k]`, `k` is no longer a key. */
  lemma DeleteRemovesKey<V>(e: Entries<V>, k: string)
    ensures Get(Delete(e, k), k) == None
  {
    HasKeyDelete(e, k, k);
  }

  /** `delete obj[k]` leaves every other key's value as it was. */
  lemma {:induction false} GetDeleteOther<V>(e: Entries<V>, k: string, k': string)
    requires k' != k
    ensures Get(Delete(e, k), k') == Get(e, k')
  {
    if |e| > 0 {
      GetDeleteOther(e[1..], k, k');
      if e[0].0 != k {
        assert Delete(e, k)[1..] == Delete(e[1..], k);
      }
    }
  }

  /** Deleting an absent key changes nothing: `delete` is a no-op then. */
  lemma {:induction false} DeleteAbsent<V>(e: Entries<V>, k: string)
    requires !HasKey(e, k)
    ensures Delete(e, k) == e
  {
    if |e| > 0 {
      DeleteAbsent(e[1..], k);
      assert [e[0]] + e[1..] == e;
    }
  }

  /** Deleting twice is deleting once. */
  lemma DeleteIdempotent<V>(e: Entries<V>, k: string)
    ensures Delete(Delete(e, k), k) == Delete(e, k)
  {
    HasKeyDelete(e, k, k);
    DeleteAbsent(Delete(e, k), k);
  }

  /** The remaining entries keep their relative order: deleting distributes over concatenation. */
  lemma {:induction false} DeleteAppend<V>(a: Entries<V>, b: Entries<V>, k: string)
    ensures Delete(a + b, k) == Delete(a, k) + Delete(b, k)
  {
    if |a| > 0 {
      assert (a + b)[1..] == a[1..] + b;
      DeleteAppend(a[1..], b, k);
    } else {
      assert a + b == b;
    }
  }

  /** Object keys stay unique under `delete obj[k]`. */
  lemma {:induction false} DeleteKeepsUnique<V>(e: Entries<V>, k: string)
    requires UniqueKeys(e)
    ensures UniqueKeys(Delete(e, k))
  {
    if |e| > 0 {
      DeleteKeepsUnique(e[1..], k);
      if e[0].0 != k {
        HasKeyDelete(e[1..], k, e[0].0);
        assert Delete(e, k)[1..] == Delete(e[1..], k);
      }
    }
  }

  /**
   * The JavaScript values the as-written property lookups can produce:
   * `ObjectPrototype` is the object `Object.prototype` itself, which the
   * inherited `__proto__` accessor returns.
   */
  datatype JsValue = Undefined | Num(n: int) | Str(s: string) | NativeFunction(source: string) | ObjectPrototype

  /** How a built-in function prints in V8: what `String(f)` gives for the built-in named `name`. */
  function NativeSource(name: string): string {
    "function " + name + "() { [native code] }"
  }

  /**
   * How `Object` prints: what `String(({}).constructor)` gives in V8. Other
   * engines lay the same text out over several lines.
   */
  const ObjectConstructorSource: string := NativeSource("Object")

  /** The methods every plain object inherits from `Object.prototype`, by name. */
  const PrototypeMethods: seq<string> := [
    "constructor", "hasOwnProperty", "isPrototypeOf", "propertyIsEnumerable",
    "toLocaleString", "toString", "valueOf",
    "__defineGetter__", "__defineSetter__", "__lookupGetter__", "__lookupSetter__"]

  /**
   * `obj[k]` for a key that is not an own property of a plain object: the
   * member inherited from `Object.prototype`. `constructor` is the `Object`
   * function, the other methods are the built-ins of those names, and the
   * `__proto__` accessor yields the prototype object itself.
   */
  function InheritedMember(k: string): (v: JsValue)
    ensures v != Undefined <==> k in PrototypeMethods || k == "__proto__"
    ensures k == "constructor" <==> v == NativeFunction(ObjectConstructorSource)
    ensures k == "__proto__" <==> v == ObjectPrototype
  {
    if k == "constructor" then NativeFunction(ObjectConstructorSource)
    else if k == "__proto__" then ObjectPrototype
    else if k in PrototypeMethods then NativeFunction(NativeSource(k))
    else Undefined
  }

  /** A string with no ASCII upper-case letter, as `toLowerCase` produces. */
  predicate NoAsciiUpper(k: string) {
    forall i :: 0 <= i < |k| ==> !('A' <= k[i] <= 'Z')
  }

  /**
   * Of the keys the application looks up, which are lowered words, only
   * `constructor` and `__proto__` reach an inherited member: every other
   * inherited method name has an upper-case letter.
   */
  lemma LoweredKeysInherit(k: string)
    requires NoAsciiUpper(k)
    ensures InheritedMember(k) != Undefined <==> k == "constructor" || k == "__proto__"
  {
    HasUpper("hasOwnProperty", 3);
    HasUpper("isPrototypeOf", 2);
    HasUpper("propertyIsEnumerable", 8);
    HasUpper("toLocaleString", 2);
    HasUpper("toString", 2);
    HasUpper("valueOf", 5);
    HasUpper("__defineGetter__", 8);
    HasUpper("__defineSetter__", 8);
    HasUpper("__lookupGetter__", 8);
    HasUpper("__lookupSetter__", 8);
  }

  lemma HasUpper(m: string, i: int)
    requires 0 <= i < |m| && 'A' <= m[i] <= 'Z'
    ensures !NoAsciiUpper(m)
  {
  }

  /** JavaScript truthiness of a value. */
  predicate Truthy(v: JsValue) {
    match v
    case Undefined => false
    case Num(n) => n != 0
    case Str(s) => s != ""
    case NativeFunction(_) => true
    case ObjectPrototype => true
  }
}
