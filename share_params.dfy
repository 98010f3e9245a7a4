/**
 * The share parameters: `Plugin.prototype.filterObject`, which keeps the
 * properties of an object whose values are truthy, and
 * `Plugin.prototype.getParams`, which merges what the page says about
 * itself (title, description, image, keywords, canonical URL) with the
 * widget's `data` option, the option winning, and drops empty values.
 */
module ShareParams {
  import opened Wrappers
  import opened JsValues

  /** The truthy properties of `fields`, in their order. */
  function TruthyFields(fields: Fields): (r: Fields)
    ensures forall i | 0 <= i < |r| :: Truthy(r[i].1)
    ensures |r| <= |fields|
  {
    if |fields| == 0 then []
    else (if Truthy(fields[0].1) then [fields[0]] else []) + TruthyFields(fields[1..])
  }

  lemma {:induction false} TruthyAppend(fields: Fields, e: (string, Value))
    ensures TruthyFields(fields + [e]) == TruthyFields(fields) + (if Truthy(e.1) then [e] else [])
  {
    if |fields| == 0 {
      assert fields + [e] == [e];
      assert [e][1..] == [];
    } else {
      assert (fields + [e])[1..] == fields[1..] + [e];
      TruthyAppend(fields[1..], e);
    }
  }

  /** Filtering keeps no property that was not there. */
  lemma {:induction false} TruthyNoKey(fields: Fields, k: string)
    requires !HasKey(fields, k)
    ensures !HasKey(TruthyFields(fields), k)
  {
    if |fields| > 0 {
      assert !HasKey(fields[1..], k) by {
        forall i | 0 <= i < |fields[1..]| ensures fields[1..][i].0 != k {
          assert fields[1..][i] == fields[i + 1];
        }
      }
      TruthyNoKey(fields[1..], k);
    }
  }

  /** After filtering, a property has its value if that value is truthy and
      is absent otherwise. */
  lemma {:induction false} TruthyLookup(fields: Fields, k: string)
    requires DistinctKeys(fields)
    ensures Lookup(TruthyFields(fields), k)
         == if Truthy(Lookup(fields, k)) then Lookup(fields, k) else Undefined
  {
    if |fields| > 0 {
      assert DistinctKeys(fields[1..]);
      TruthyLookup(fields[1..], k);
      var r := TruthyFields(fields);
      var rest := TruthyFields(fields[1..]);
      if Truthy(fields[0].1) {
        assert r == [fields[0]] + rest;
        assert r[0] == fields[0] && r[1..] == rest;
      } else {
        assert r == rest;
      }
      if fields[0].0 == k {
        assert !HasKey(fields[1..], k);
        TruthyNoKey(fields[1..], k);
      }
    }
  }

  lemma {:induction false} TruthyDistinct(fields: Fields)
    requires DistinctKeys(fields)
    ensures DistinctKeys(TruthyFields(fields))
  {
    if |fields| > 0 {
      assert DistinctKeys(fields[1..]);
      TruthyDistinct(fields[1..]);
      if Truthy(fields[0].1) {
        assert !HasKey(fields[1..], fields[0].0);
        TruthyNoKey(fields[1..], fields[0].0);
      }
    }
  }

  /** Filtering twice is filtering once. */
  lemma {:induction false} TruthyIdempotent(fields: Fields)
    ensures TruthyFields(TruthyFields(fields)) == TruthyFields(fields)
  {
    if |fields| > 0 {
      TruthyIdempotent(fields[1..]);
      var head := if Truthy(fields[0].1) then [fields[0]] else [];
      var r := head + TruthyFields(fields[1..]);
      if Truthy(fields[0].1) {
        assert r[0] == fields[0] && r[1..] == TruthyFields(fields[1..]);
      } else {
        assert r == TruthyFields(fields[1..]);
      }
    }
  }

  /** What `$.each` visits: the properties of an object. */
  function ObjectEntries(obj: Value): Fields
  {
    if obj.Obj? then obj.fields else []
  }

  predicate WellFormed(obj: Value)
  {
    obj.Obj? ==> DistinctKeys(obj.fields)
  }

  /** Assigning the truthy properties of `fields`, in order, onto `acc`. */
  function Filtered(acc: Fields, fields: Fields): (r: Fields)
    ensures DistinctKeys(acc) ==> DistinctKeys(r)
    ensures forall i | 0 <= i < |acc| :: Truthy(acc[i].1) ==> HasKey(r, acc[i].0)
    decreases |fields|
  {
    if |fields| == 0 then acc
    else
      var (k, v) := fields[0];
      Filtered(if Truthy(v) then Put(acc, k, v) else acc, fields[1..])
  }

  /** On an object, whose property names are distinct, the assignments only
      ever append: the result is the truthy properties in their order. */
  lemma {:induction false} FilteredDistinct(acc: Fields, fields: Fields)
    requires DistinctKeys(fields)
    requires forall i, j | 0 <= i < |acc| && 0 <= j < |fields| :: acc[i].0 != fields[j].0
    ensures Filtered(acc, fields) == acc + TruthyFields(fields)
    decreases |fields|
  {
    if |fields| > 0 {
      var k, v := fields[0].0, fields[0].1;
      var rest := fields[1..];
      var head := if Truthy(v) then [(k, v)] else [];
      var acc' := acc + head;
      assert Filtered(acc, fields) == Filtered(acc', rest) by {
        assert fields[0] == (k, v);
        if Truthy(v) {
          assert !HasKey(acc, k);
          assert Put(acc, k, v) == acc';
        } else {
          assert acc' == acc;
        }
      }
      forall i, j | 0 <= i < |acc'| && 0 <= j < |rest| ensures acc'[i].0 != rest[j].0 {
        assert rest[j] == fields[j + 1];
      }
      FilteredDistinct(acc', rest);
      assert TruthyFields(fields) == head + TruthyFields(rest);
      SeqAssoc(acc, head, TruthyFields(rest));
    }
  }

  /** `filterObject(obj)`: `$.each` over the properties, assigning each
      truthy one to a fresh object. */
  method FilterObject(obj: Value) returns (data: Fields)
    ensures data == Filtered([], ObjectEntries(obj))
    ensures WellFormed(obj) ==> data == TruthyFields(ObjectEntries(obj))
  {
    var entries := ObjectEntries(obj);
    data := [];
    var i := 0;
    while i < |entries|
      invariant 0 <= i <= |entries|
      invariant Filtered(data, entries[i..]) == Filtered([], entries)
    {
      var (key, value) := entries[i];
      assert entries[i..][1..] == entries[i + 1..];
      if Truthy(value) {
        data := Put(data, key, value);
      }
      i := i + 1;
    }
    if WellFormed(obj) {
      FilteredDistinct([], entries);
    }
  }

  /** What the page says about itself: `document.title`, and the
      `content` or `href` of the `description`, `og:image` and `keywords`
      meta tags and of the canonical link, each absent when the tag is. */
  datatype PageMeta = PageMeta(
    title: string,
    description: Option<string>,
    image: Option<string>,
    keywords: Option<string>,
    canonical: Option<string>)

  /** `.attr(...)`: the attribute's text, or `undefined`. */
  function Attr(a: Option<string>): Value
  {
    match a
    case Some(s) => Str(s)
    case None => Undefined
  }

  /** The object literal built from the page. */
  function PageObject(page: PageMeta): (o: Fields)
    ensures DistinctKeys(o)
  {
    [ ("title", Str(page.title)),
      ("description", Attr(page.description)),
      ("image", Attr(page.image)),
      ("hashtags", Attr(page.keywords)),
      ("url", Attr(page.canonical)) ]
  }

  /** The page's values overlaid with the truthy values of `data`. */
  function Merged(page: PageMeta, data: Value): Fields
  {
    ExtendFields(ExtendFields([], PageObject(page)), Filtered([], ObjectEntries(data)))
  }

  /** What `getParams` returns. */
  function Params(page: PageMeta, data: Value): Fields
  {
    Filtered([], Merged(page, data))
  }

  /** `getParams()`, with the page and `this.options.data` as inputs. */
  method GetParams(page: PageMeta, data: Value) returns (params: Fields)
    ensures params == Params(page, data)
    ensures DistinctKeys(params)
  {
    var fromData := FilterObject(data);
    var merged := ExtendFields(ExtendFields([], PageObject(page)), fromData);
    params := FilterObject(Obj(merged));
  }

  /** On an object `data`, the share params are the truthy properties of
      the page's values overlaid with the truthy properties of `data`. */
  lemma ParamsFiltered(page: PageMeta, data: Value)
    requires WellFormed(data)
    ensures Params(page, data) == TruthyFields(Merged(page, data))
    ensures Merged(page, data)
         == ExtendFields(ExtendFields([], PageObject(page)), TruthyFields(ObjectEntries(data)))
  {
    OverlayFiltered(ExtendFields([], PageObject(page)), ObjectEntries(data));
  }

  lemma OverlayFiltered(base: Fields, entries: Fields)
    requires DistinctKeys(base) && DistinctKeys(entries)
    ensures Filtered([], entries) == TruthyFields(entries)
    ensures Filtered([], ExtendFields(base, Filtered([], entries)))
         == TruthyFields(ExtendFields(base, Filtered([], entries)))
  {
    var empty: Fields := [];
    FilteredDistinct(empty, entries);
    var m := ExtendFields(base, Filtered(empty, entries));
    FilteredDistinct(empty, m);
  }

  /** Every share parameter has a truthy value, and a parameter is the
      `data` option's value when that is truthy, else the page's when that
      is truthy, and is absent otherwise. Keys beyond the five the page
      supplies come through from `data` alike. */
  lemma {:induction false} ParamsLookup(page: PageMeta, data: Value, k: string)
    requires WellFormed(data)
    ensures forall i | 0 <= i < |Params(page, data)| :: Truthy(Params(page, data)[i].1)
    ensures var fromData := Lookup(ObjectEntries(data), k);
      var fromPage := Lookup(PageObject(page), k);
      Lookup(Params(page, data), k)
        == if Truthy(fromData) then fromData
           else if Truthy(fromPage) then fromPage
           else Undefined
  {
    ParamsFiltered(page, data);
    var entries := ObjectEntries(data);
    var base := ExtendFields([], PageObject(page));
    TruthyDistinct(entries);
    TruthyLookup(entries, k);
    ExtendLookup([], PageObject(page), k);
    ExtendLookup(base, TruthyFields(entries), k);
    TruthyLookup(Merged(page, data), k);
  }

  /** A parameter is present exactly when `data` or the page gives it a
      truthy value. */
  lemma {:induction false} ParamsHasKey(page: PageMeta, data: Value, k: string)
    requires WellFormed(data)
    ensures HasKey(Params(page, data), k)
        <==> Truthy(Lookup(ObjectEntries(data), k)) || Truthy(Lookup(PageObject(page), k))
  {
    ParamsLookup(page, data, k);
    ParamsFiltered(page, data);
    var p := Params(page, data);
    if HasKey(p, k) {
      var i :| 0 <= i < |p| && p[i].0 == k;
      assert Truthy(p[i].1);
      LookupFirst(p, k, i);
    }
  }

  lemma {:induction false} LookupFirst(o: Fields, k: string, i: nat)
    requires i < |o| && o[i].0 == k
    requires forall j | 0 <= j < |o| :: Truthy(o[j].1)
    ensures Truthy(Lookup(o, k))
  {
    if o[0].0 != k {
      LookupFirst(o[1..], k, i - 1);
    }
  }

  /** An empty document title is dropped like any other falsy value. */
  lemma {:induction false} EmptyTitleDropped(page: PageMeta, data: Value)
    requires WellFormed(data) && page.title == ""
    requires !Truthy(Lookup(ObjectEntries(data), "title"))
    ensures !HasKey(Params(page, data), "title")
  {
    ParamsHasKey(page, data, "title");
  }
}
