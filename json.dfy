/** JSON values as Newtonsoft.Json's JToken tree exposes them; the text parser and
    printer are not modelled, a document is given as a value. */
module Json {
  import opened Wrappers

  datatype Json =
    | JNull
    | JBool(b: bool)
    | JString(s: string)
    | JArray(items: seq<Json>)
    | JObject(props: seq<Prop>)

  /** JProperty: a name and a value, in the order the object lists them. */
  datatype Prop = Prop(name: string, value: Json)

  function Names(props: seq<Prop>): (r: seq<string>)
    ensures |r| == |props|
    ensures forall i :: 0 <= i < |props| ==> r[i] == props[i].name
  {
    if props == [] then [] else [props[0].name] + Names(props[1..])
  }

  /** The object indexer `json[key]`: the value of the property named `key`,
      None for the null that .NET returns when there is none. */
  function Get(props: seq<Prop>, key: string): (r: Option<Json>)
    ensures r.None? <==> key !in Names(props)
    ensures r.Some? ==> Prop(key, r.value) in props
  {
    if props == [] then None
    else if props[0].name == key then Some(props[0].value)
    else Get(props[1..], key)
  }

  /** No two properties share a name, as in every JObject. */
  predicate DistinctNames(props: seq<Prop>) {
    forall i, j :: 0 <= i < j < |props| ==> props[i].name != props[j].name
  }

  /** In an object with distinct names, each property is the one its name finds. */
  lemma {:induction false} GetDistinct(props: seq<Prop>, i: nat)
    requires DistinctNames(props) && i < |props|
    ensures Get(props, props[i].name) == Some(props[i].value)
    decreases i
  {
    if i > 0 {
      assert props[i] == props[1..][i - 1];
      GetDistinct(props[1..], i - 1);
    }
  }

  /** The indexer finds the first property with the name. */
  lemma {:induction false} GetFirst(props: seq<Prop>, key: string, i: nat)
    requires i < |props| && props[i].name == key
    requires forall j :: 0 <= j < i ==> props[j].name != key
    ensures Get(props, key) == Some(props[i].value)
    decreases i
  {
    if i > 0 {
      GetFirst(props[1..], key, i - 1);
    }
  }

  /** The indexer finds nothing when no property has the name. */
  lemma GetAbsent(props: seq<Prop>, key: string)
    requires forall j :: 0 <= j < |props| ==> props[j].name != key
    ensures Get(props, key).None?
  {
    assert key !in Names(props);
  }

  lemma {:induction false} GetAppend(a: seq<Prop>, b: seq<Prop>, key: string)
    ensures Get(a + b, key) == if key in Names(a) then Get(a, key) else Get(b, key)
  {
    if a == [] {
      assert a + b == b;
    } else if a[0].name == key {
      assert (a + b)[0] == a[0];
    } else {
      assert (a + b)[0] == a[0];
      assert (a + b)[1..] == a[1..] + b;
      assert key in Names(a) <==> key in Names(a[1..]);
      GetAppend(a[1..], b, key);
    }
  }

  /** JObject.Add of each property in turn, which throws on a name already added. */
  function AddAll(ps: seq<Prop>): (r: Result<seq<Prop>>)
    ensures r.Ok? ==> r.value == ps
    ensures r.Err? ==> r.error.DuplicateKey?
  {
    if ps == [] then Ok([])
    else
      var init :- AddAll(ps[..|ps| - 1]);
      var p := ps[|ps| - 1];
      if p.name in Names(init) then Err(DuplicateKey(p.name)) else Ok(init + [p])
  }

  /** Once an Add throws, the later properties are never added. */
  lemma {:induction false} AddAllStops(ps: seq<Prop>, i: nat)
    requires i <= |ps| && AddAll(ps[..i]).Err?
    ensures AddAll(ps) == AddAll(ps[..i])
    decreases |ps|
  {
    if i < |ps| {
      var init := ps[..|ps| - 1];
      assert init[..i] == ps[..i];
      AddAllStops(init, i);
    } else {
      assert ps[..i] == ps;
    }
  }

  /** One more Add: it throws on a name already added, and otherwise appends. */
  lemma AddAllStep(ps: seq<Prop>, i: nat, added: seq<Prop>)
    requires i < |ps| && AddAll(ps[..i]) == Ok(added)
    ensures ps[i].name in Names(added) ==> AddAll(ps) == Err(DuplicateKey(ps[i].name))
    ensures ps[i].name !in Names(added) ==> AddAll(ps[..i + 1]) == Ok(added + [ps[i]])
  {
    assert ps[..i + 1][..i] == ps[..i];
    if ps[i].name in Names(added) {
      AddAllStops(ps, i + 1);
    }
  }

  /** JObject.Add called on each property in turn, into an object that starts empty. */
  method AddEach(ps: seq<Prop>) returns (r: Result<seq<Prop>>)
    ensures r == AddAll(ps)
  {
    var added := [];
    var i := 0;
    while i < |ps|
      invariant 0 <= i <= |ps|
      invariant AddAll(ps[..i]) == Ok(added)
    {
      AddAllStep(ps, i, added);
      if ps[i].name in Names(added) {
        return Err(DuplicateKey(ps[i].name));
      }
      added := added + [ps[i]];
      i := i + 1;
    }
    assert ps[..i] == ps;
    return Ok(added);
  }

  /** The properties are all added iff their names are distinct. */
  lemma {:induction false} AddAllOk(ps: seq<Prop>)
    ensures AddAll(ps).Ok? <==> DistinctNames(ps)
    decreases |ps|
  {
    if ps != [] {
      var init := ps[..|ps| - 1];
      var last := ps[|ps| - 1];
      AddAllOk(init);
      assert init + [last] == ps;
      DistinctSnoc(init, last);
    }
  }

  lemma DistinctSnoc(init: seq<Prop>, last: Prop)
    ensures DistinctNames(init + [last]) <==> DistinctNames(init) && last.name !in Names(init)
  {
    var ps := init + [last];
    assert forall k :: 0 <= k < |init| ==> ps[k] == init[k];
    if last.name in Names(init) {
      var k :| 0 <= k < |init| && Names(init)[k] == last.name;
      assert ps[k].name == ps[|init|].name;
    }
  }

  /** The explicit cast `(string)token` of a property named `key`. */
  function AsString(j: Json, key: string): (r: Result<string>)
    ensures r.Ok? <==> j.JString?
  {
    if j.JString? then Ok(j.s) else Err(InvalidCast(key))
  }

  /** The explicit cast `(bool)token` of a property named `key`. */
  function AsBool(j: Json, key: string): (r: Result<bool>)
    ensures r.Ok? <==> j.JBool?
  {
    if j.JBool? then Ok(j.b) else Err(InvalidCast(key))
  }

  /** A string list as a JArray. */
  function StringArray(ss: seq<string>): (r: seq<Json>)
    ensures |r| == |ss|
    ensures forall i :: 0 <= i < |ss| ==> r[i] == JString(ss[i])
  {
    seq(|ss|, i requires 0 <= i < |ss| => JString(ss[i]))
  }

  /** `foreach (string x in array)`: every item cast to string, in order. */
  function AsStrings(items: seq<Json>, key: string): (r: Result<seq<string>>)
    ensures r.Ok? ==> |r.value| == |items|
    ensures r.Ok? ==> forall i :: 0 <= i < |items| ==> items[i] == JString(r.value[i])
    ensures r.Ok? <==> forall i :: 0 <= i < |items| ==> items[i].JString?
  {
    if items == [] then Ok([])
    else
      var first :- AsString(items[0], key);
      var rest :- AsStrings(items[1..], key);
      Ok([first] + rest)
  }

  /** Reading a written string list gives it back. */
  lemma StringArrayRoundTrip(ss: seq<string>, key: string)
    ensures AsStrings(StringArray(ss), key) == Ok(ss)
  {
    var r := AsStrings(StringArray(ss), key);
    assert r.Ok?;
    assert r.value == ss;
  }

  /** Casting a list item by item: the items before a failing one cast fine. */
  lemma {:induction false} AsStringsSplit(items: seq<Json>, key: string, i: nat)
    requires i < |items|
    requires AsStrings(items[..i], key).Ok? && AsString(items[i], key).Err?
    ensures AsStrings(items, key) == Err(AsString(items[i], key).error)
    decreases i
  {
    if i > 0 {
      assert items[1..][..i - 1] == items[..i][1..];
      AsStringsSplit(items[1..], key, i - 1);
    }
  }

  /** Casting a list one more item at a time. */
  lemma {:induction false} AsStringsSnoc(items: seq<Json>, key: string)
    requires |items| > 0
    requires AsStrings(items[..|items| - 1], key).Ok? && items[|items| - 1].JString?
    ensures AsStrings(items, key) == Ok(AsStrings(items[..|items| - 1], key).value + [items[|items| - 1].s])
    decreases |items|
  {
    if |items| == 1 {
      assert items[1..] == [] && items[..0] == [];
      assert AsStrings(items[1..], key) == Ok([]);
      assert AsString(items[0], key) == Ok(items[0].s);
      assert AsStrings(items, key) == Ok([items[0].s] + []);
      assert AsStrings(items[..0], key) == Ok([]);
      assert [] + [items[0].s] == [items[0].s] + [];
    } else {
      var init := items[..|items| - 1];
      assert init[0] == items[0];
      assert items[1..][..|items| - 2] == init[1..];
      assert AsStrings(init, key).value == [init[0].s] + AsStrings(init[1..], key).value;
      assert items[1..][|items| - 2] == items[|items| - 1];
      AsStringsSnoc(items[1..], key);
      assert items[0].JString?;
      var a := AsStrings(init[1..], key).value;
      assert AsStrings(items[1..], key).value == a + [items[|items| - 1].s];
      assert AsStrings(items, key).value == [items[0].s] + (a + [items[|items| - 1].s]);
      assert [items[0].s] + (a + [items[|items| - 1].s]) == ([items[0].s] + a) + [items[|items| - 1].s];
    }
  }
}
