/**
 * JavaScript values as the widget sees them: the options it is given, the
 * share params, hook callbacks, and the host objects (windows, DOM elements)
 * it passes along. A plain object is its list of own enumerable properties
 * in enumeration order, which for the string keys used here is insertion
 * order. `Put` is property assignment and `Extend` is one source of the
 * shallow `jQuery.extend`.
 */
module JsValues {
  import opened Strings

  datatype Value =
    | Undefined
    | Null
    | Bool(b: bool)
    | Num(n: int)
    | Str(s: string)
    /** A function, known by its source text (which is also what `String(f)` gives). */
    | Func(source: string)
    | Obj(fields: seq<(string, Value)>)
    /** A browser object such as a window, with the class name `String` prints. */
    | Host(kind: string, id: nat)

  type Fields = seq<(string, Value)>

  /** JavaScript truthiness. */
  predicate Truthy(v: Value)
  {
    match v
    case Undefined => false
    case Null => false
    case Bool(b) => b
    case Num(n) => n != 0
    case Str(s) => s != ""
    case Func(_) => true
    case Obj(_) => true
    case Host(_, _) => true
  }

  /** `String(v)`. */
  function ToString(v: Value): string
  {
    match v
    case Undefined => "undefined"
    case Null => "null"
    case Bool(b) => if b then "true" else "false"
    case Num(n) => IntToString(n)
    case Str(s) => s
    case Func(source) => source
    case Obj(_) => "[object Object]"
    case Host(kind, _) => "[object " + kind + "]"
  }

  // ---- objects ----

  predicate HasKey(o: Fields, k: string)
  {
    exists i :: 0 <= i < |o| && o[i].0 == k
  }

  /** Every property name occurs once, as in any JavaScript object. */
  predicate DistinctKeys(o: Fields)
  {
    forall i, j | 0 <= i < j < |o| :: o[i].0 != o[j].0
  }

  /** `o[k]`: the value of property `k`, `undefined` when there is none. */
  function Lookup(o: Fields, k: string): (v: Value)
    ensures !HasKey(o, k) ==> v == Undefined
    ensures HasKey(o, k) ==> exists i :: 0 <= i < |o| && o[i] == (k, v)
  {
    if |o| == 0 then Undefined
    else if o[0].0 == k then o[0].1
    else Lookup(o[1..], k)
  }

  /** Position of property `k`, `|o|` when there is none. */
  function KeyIndex(o: Fields, k: string): (i: nat)
    ensures i <= |o|
    ensures i < |o| ==> o[i].0 == k
    ensures forall j | 0 <= j < i :: o[j].0 != k
    ensures i == |o| <==> !HasKey(o, k)
  {
    if |o| == 0 then 0
    else if o[0].0 == k then 0
    else 1 + KeyIndex(o[1..], k)
  }

  /** `o[k] = v`: an existing property keeps its place, a new one goes last. */
  function Put(o: Fields, k: string, v: Value): (r: Fields)
    ensures Lookup(r, k) == v
    ensures forall k' | k' != k :: Lookup(r, k') == Lookup(o, k')
    ensures forall k' :: HasKey(r, k') <==> HasKey(o, k') || k' == k
    ensures HasKey(o, k) ==> |r| == |o| && forall i | 0 <= i < |o| :: r[i].0 == o[i].0
    ensures !HasKey(o, k) ==> r == o + [(k, v)]
    ensures DistinctKeys(o) ==> DistinctKeys(r)
  {
    var i := KeyIndex(o, k);
    var r := if i < |o| then o[i := (k, v)] else o + [(k, v)];
    PutLookup(o, k, v, i, r);
    r
  }

  lemma SeqAssoc(a: Fields, b: Fields, c: Fields)
    ensures (a + b) + c == a + (b + c)
  {
  }

  lemma PutLookup(o: Fields, k: string, v: Value, i: nat, r: Fields)
    requires i == KeyIndex(o, k)
    requires r == if i < |o| then o[i := (k, v)] else o + [(k, v)]
    ensures Lookup(r, k) == v
    ensures forall k' | k' != k :: Lookup(r, k') == Lookup(o, k')
    ensures forall k' :: HasKey(r, k') <==> HasKey(o, k') || k' == k
  {
    LookupAt(r, k, i);
    assert r[i].0 == k;
    forall k' | HasKey(o, k')
      ensures HasKey(r, k')
    {
      var j :| 0 <= j < |o| && o[j].0 == k';
      assert r[j].0 == k';
    }
    forall k' | HasKey(r, k') && k' != k
      ensures HasKey(o, k')
    {
      var j :| 0 <= j < |r| && r[j].0 == k';
      assert o[j].0 == k';
    }
    forall k' | k' != k
      ensures Lookup(r, k') == Lookup(o, k')
    {
      if i < |o| {
        LookupReplace(o, i, (k, v), k');
      } else {
        LookupAppend(o, (k, v), k');
      }
    }
  }

  /** The value at the first position holding `k`. */
  lemma {:induction false} LookupAt(o: Fields, k: string, i: nat)
    requires i < |o| && o[i].0 == k
    requires forall j | 0 <= j < i :: o[j].0 != k
    ensures Lookup(o, k) == o[i].1
  {
    if i > 0 {
      LookupAt(o[1..], k, i - 1);
    }
  }

  /** Replacing the value at a position holding another key does not change `k`. */
  lemma {:induction false} LookupReplace(o: Fields, i: nat, e: (string, Value), k: string)
    requires i < |o| && o[i].0 == e.0 && e.0 != k
    ensures Lookup(o[i := e], k) == Lookup(o, k)
  {
    if i > 0 && o[0].0 != k {
      assert o[i := e][1..] == o[1..][i - 1 := e];
      LookupReplace(o[1..], i - 1, e, k);
    }
  }

  /** Appending another key does not change `k`. */
  lemma {:induction false} LookupAppend(o: Fields, e: (string, Value), k: string)
    requires e.0 != k
    ensures Lookup(o + [e], k) == Lookup(o, k)
  {
    if |o| > 0 && o[0].0 != k {
      assert (o + [e])[1..] == o[1..] + [e];
      LookupAppend(o[1..], e, k);
    }
  }

  /** The properties a `for..in` loop visits: an object's own properties, or
      a string's indices. */
  function Enumerate(v: Value): (f: Fields)
    ensures v.Obj? ==> f == v.fields
    ensures !v.Obj? && !v.Str? ==> f == []
  {
    match v
    case Obj(fields) => fields
    case Str(s) => seq(|s|, i requires 0 <= i < |s| => (IntToString(i), Str([s[i]])))
    case _ => []
  }

  /** What a `for..in` loop visits has distinct names: an object's own by
      assumption, a string's indices because distinct numbers print
      differently. */
  lemma EnumerateDistinct(v: Value)
    requires v.Obj? ==> DistinctKeys(v.fields)
    ensures DistinctKeys(Enumerate(v))
  {
    if v.Str? {
      var f := Enumerate(v);
      forall i, j | 0 <= i < j < |f| ensures f[i].0 != f[j].0 {
        IntToStringRoundTrip(i);
        IntToStringRoundTrip(j);
      }
    }
  }

  /** Copies the properties of `source` onto `target` in order, skipping
      `undefined` values, as the shallow `jQuery.extend` does. */
  function ExtendFields(target: Fields, source: Fields): (r: Fields)
    ensures DistinctKeys(target) ==> DistinctKeys(r)
    decreases |source|
  {
    if |source| == 0 then target
    else
      var (k, v) := source[0];
      ExtendFields(if v == Undefined then target else Put(target, k, v), source[1..])
  }

  /** `jQuery.extend(target, source)` for one source; `null` and `undefined`
      sources, and primitives without indices, add nothing. */
  function Extend(target: Fields, source: Value): Fields
  {
    ExtendFields(target, Enumerate(source))
  }

  /** After extending, a property has the source's value unless the source's
      value is `undefined`, in which case the target's value stays. */
  lemma {:induction false} ExtendLookup(target: Fields, source: Fields, k: string)
    requires DistinctKeys(source)
    ensures Lookup(ExtendFields(target, source), k)
         == if Lookup(source, k) != Undefined then Lookup(source, k) else Lookup(target, k)
    decreases |source|
  {
    if |source| > 0 {
      var (k0, v0) := source[0];
      var t' := if v0 == Undefined then target else Put(target, k0, v0);
      assert DistinctKeys(source[1..]);
      ExtendLookup(t', source[1..], k);
      if k == k0 {
        assert !HasKey(source[1..], k);
      }
    }
  }

  /** After extending, the target has a property exactly when it had one
      before or the source gives one a value other than `undefined`. */
  lemma {:induction false} ExtendHasKey(target: Fields, source: Fields, k: string)
    requires DistinctKeys(source)
    ensures HasKey(ExtendFields(target, source), k)
        <==> HasKey(target, k) || Lookup(source, k) != Undefined
    decreases |source|
  {
    if |source| > 0 {
      var (k0, v0) := source[0];
      var t' := if v0 == Undefined then target else Put(target, k0, v0);
      assert DistinctKeys(source[1..]);
      ExtendHasKey(t', source[1..], k);
      if k == k0 {
        assert !HasKey(source[1..], k);
      }
    }
  }
}
