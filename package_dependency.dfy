/** PackageDependency.cs: one entry of a manifest's "dependencies" object, its
    generated id and its JSON form. */
module Dependencies {
  import opened Wrappers
  import opened Strings
  import opened Json

  datatype DependencyType = File | Package

  /** The characters `generateId` turns into '_' once '/' has become '.'. */
  const Forbidden: set<char> := {'>', '<', ':', '\\', '|', '?', '*', '\t', ' ', '\0'}

  /** The version setter's test: "*" alone, or a version without '*', '^' and '+'. */
  predicate ValidVersion(v: string) {
    !(('*' in v && |v| > 1) || '^' in v || '+' in v)
  }

  /** Removes every "https", then every "http", then every "://". */
  function StripScheme(s: string): (r: string)
    ensures forall c :: c !in s ==> c !in r
  {
    var a := ReplaceAll(s, "https", "");
    var b := ReplaceAll(a, "http", "");
    var r := ReplaceAll(b, "://", "");
    forall c | c !in s ensures c !in r {
      ReplaceAllKeepsOut(s, "https", "", c);
      ReplaceAllKeepsOut(a, "http", "", c);
      ReplaceAllKeepsOut(b, "://", "", c);
    }
    r
  }

  /** The text `generateId` works on once dots are gone and schemes are stripped. */
  function IdSource(resourceUrl: string, version: string): (r: string)
    ensures '.' !in r
  {
    var s := ReplaceChar(resourceUrl + "--" + version, '.', '_');
    StripScheme(s)
  }

  /** The character `generateId` writes for `c` in its last pass. */
  function IdChar(c: char): char {
    if c == '/' then '.' else if c in Forbidden then '_' else c
  }

  /** The chain of single-character replacements after the scheme is gone. */
  function Sanitize(s: string): (r: string)
    ensures |r| == |s|
    ensures forall i :: 0 <= i < |s| ==> r[i] == IdChar(s[i])
  {
    var t := ReplaceChar(s, '/', '.');
    var t := ReplaceChar(t, '>', '_');
    var t := ReplaceChar(t, '<', '_');
    var t := ReplaceChar(t, ':', '_');
    var t := ReplaceChar(t, '\\', '_');
    var t := ReplaceChar(t, '|', '_');
    var t := ReplaceChar(t, '?', '_');
    var t := ReplaceChar(t, '*', '_');
    var t := ReplaceChar(t, '\t', '_');
    var t := ReplaceChar(t, ' ', '_');
    ReplaceChar(t, '\0', '_')
  }

  /** generateId. */
  function GenerateId(resourceUrl: string, version: string): string {
    var t := Sanitize(IdSource(resourceUrl, version));
    if |t| > 0 && t[|t| - 1] == '.' then t + "_" else t
  }

  /** An id is usable as a directory name and inside a Lua comment: it holds no
      path separator and none of the other replaced characters, and does not end with '.'. */
  lemma IdShape(resourceUrl: string, version: string)
    ensures var r := GenerateId(resourceUrl, version);
      && (forall c :: c in Forbidden ==> c !in r)
      && '/' !in r
      && (|r| == 0 || r[|r| - 1] != '.')
  {
    var t := Sanitize(IdSource(resourceUrl, version));
    var r := GenerateId(resourceUrl, version);
    assert '_' !in Forbidden && '.' !in Forbidden;
    assert forall i :: 0 <= i < |t| ==> t[i] !in Forbidden && t[i] != '/';
    assert r == t || r == t + "_";
    assert forall i :: 0 <= i < |r| ==> r[i] !in Forbidden && r[i] != '/';
  }

  /** The dots of an id stand exactly where the stripped resource had a '/'. */
  lemma IdDots(resourceUrl: string, version: string)
    ensures var s := IdSource(resourceUrl, version);
      var r := GenerateId(resourceUrl, version);
      |s| <= |r| <= |s| + 1 && forall i :: 0 <= i < |s| ==> (r[i] == '.' <==> s[i] == '/')
  {
    var s := IdSource(resourceUrl, version);
    assert forall i :: 0 <= i < |s| ==> s[i] != '.';
  }

  datatype Dependency = Dependency(
    resource: string,
    kind: DependencyType,
    version: string,
    topOrder: bool,
    sources: seq<string>)
  {
    /** The `id` property, kept equal to generateId(Resource, Version) by both setters. */
    function Id(): string {
      GenerateId(resource, version)
    }
  }

  /** The form every parsed dependency has: the setters trim the resource and
      refuse unsupported versions. */
  predicate WellFormed(d: Dependency) {
    Trimmed(d.resource) && ValidVersion(d.version)
  }

  /** The `(JProperty d, string packageName)` constructor, as a value. */
  function FromProperty(name: string, value: Json, packageName: string): (r: Result<Dependency>)
    ensures r.Ok? ==> WellFormed(r.value)
    ensures value.JString? ==> (r.Ok? <==> ValidVersion(value.s))
    ensures value.JString? && r.Ok? ==>
      r.value == Dependency(Trim(name), Package, value.s, false, [])
    ensures !value.JString? && !value.JObject? ==> r == Err(BadDependencyValue(packageName, name))
    ensures value.JObject? && r.Ok? && Get(value.props, "resource").None? ==> r.value.resource == Trim(name)
  {
    match value
    case JString(s) =>
      // the version is assigned while the resource is still empty
      if !ValidVersion(s) then Err(UnsupportedVersion(""))
      else Ok(Dependency(Trim(name), Package, s, false, []))
    case JObject(props) => FromObject(name, props, packageName)
    case _ => Err(BadDependencyValue(packageName, name))
  }

  /** The object branch of the constructor: every property is optional. */
  function FromObject(name: string, props: seq<Prop>, packageName: string): (r: Result<Dependency>)
    ensures r.Ok? ==> WellFormed(r.value)
    ensures r.Ok? && Get(props, "resource").None? ==> r.value.resource == Trim(name)
  {
    var head :- Head(props, name);
    var rest :- Rest(props, packageName, head.0);
    Ok(Dependency(head.0, rest.0, head.1, rest.1, rest.2))
  }

  /** The resource and the version, in the order the constructor sets them. */
  function Head(props: seq<Prop>, name: string): (r: Result<(string, string)>)
    ensures r.Ok? ==> Trimmed(r.value.0) && ValidVersion(r.value.1)
  {
    var rawResource :- ResourceField(props, name);
    var resource := Trim(rawResource);
    var version :- VersionField(props, resource);
    Ok((resource, version))
  }

  /** The type, topOrder and sources, read after the resource is known. */
  function Rest(props: seq<Prop>, packageName: string, resource: string): (r: Result<(DependencyType, bool, seq<string>)>) {
    var kind :- TypeField(props, packageName, resource);
    var topOrder :- TopOrderField(props);
    var sources :- SourcesField(props);
    Ok((kind, topOrder, sources))
  }

  /** "resource", recorded in the lock state, else the property name. */
  function ResourceField(props: seq<Prop>, name: string): (r: Result<string>)
    ensures Get(props, "resource").None? ==> r == Ok(name)
  {
    match Get(props, "resource")
    case None => Ok(name)
    case Some(j) => AsString(j, "resource")
  }

  function VersionField(props: seq<Prop>, resource: string): (r: Result<string>)
    ensures r.Ok? ==> ValidVersion(r.value)
    ensures Get(props, "version").None? ==> r == Ok("*")
  {
    match Get(props, "version")
    case None => Ok("*")
    case Some(j) => ParseVersion(j, resource)
  }

  function TypeField(props: seq<Prop>, packageName: string, resource: string): (r: Result<DependencyType>)
    ensures Get(props, "type").None? ==> r == Ok(Package)
  {
    match Get(props, "type")
    case None => Ok(Package)
    case Some(j) => ParseType(j, packageName, resource)
  }

  function TopOrderField(props: seq<Prop>): (r: Result<bool>)
    ensures Get(props, "topOrder").None? ==> r == Ok(false)
  {
    match Get(props, "topOrder")
    case None => Ok(false)
    case Some(j) => AsBool(j, "topOrder")
  }

  /** "sources" when it is an array; anything else there is ignored. */
  function SourcesField(props: seq<Prop>): (r: Result<seq<string>>)
    ensures !(Get(props, "sources").Some? && Get(props, "sources").value.JArray?) ==> r == Ok([])
  {
    match Get(props, "sources")
    case Some(JArray(items)) => AsStrings(items, "sources")
    case _ => Ok([])
  }

  /** The version setter applied to a cast token. */
  function ParseVersion(j: Json, resource: string): (r: Result<string>)
    ensures r.Ok? <==> j.JString? && ValidVersion(j.s)
    ensures r.Ok? ==> r.value == j.s
  {
    var s :- AsString(j, "version");
    if ValidVersion(s) then Ok(s) else Err(UnsupportedVersion(resource))
  }

  /** The switch on the "type" property. */
  function ParseType(j: Json, packageName: string, resource: string): (r: Result<DependencyType>)
    ensures r == Ok(File) <==> j == JString("file")
    ensures r == Ok(Package) <==> j == JString("package")
    ensures j.JString? && r.Err? ==> r.error == BadDependencyType(packageName, resource)
  {
    var s :- AsString(j, "type");
    if s == "file" then Ok(File)
    else if s == "package" then Ok(Package)
    else Err(BadDependencyType(packageName, resource))
  }

  /** ToJson(asState): the short string form when it says everything, an object
      otherwise; the lock-state form is keyed by id and also records resource and sources. */
  function ToJson(d: Dependency, asState: bool): (r: Prop)
    ensures r.name == if asState then d.Id() else d.resource
    ensures !asState && d.kind == Package && !d.topOrder ==> r.value == JString(d.version)
    ensures r.value.JObject? <==> asState || d.kind == File || d.topOrder
  {
    if asState || d.kind != Package || d.topOrder then
      Prop(if asState then d.Id() else d.resource, JObject(ObjectProps(d, asState)))
    else Prop(d.resource, JString(d.version))
  }

  /** The properties of the object form: type and topOrder, the version of a
      package, and in the lock state the resource and the sources. */
  function ObjectProps(d: Dependency, asState: bool): (r: seq<Prop>)
    ensures |r| == (if d.kind == Package then 3 else 2) + (if asState then 2 else 0)
    ensures r[0] == Prop("type", JString(if d.kind == Package then "package" else "file"))
    ensures r[1] == Prop("topOrder", JBool(d.topOrder))
    ensures d.kind == Package ==> r[2] == Prop("version", JString(d.version))
    ensures asState ==> r[|r| - 2] == Prop("resource", JString(d.resource))
    ensures asState ==> r[|r| - 1] == Prop("sources", JArray(StringArray(d.sources)))
  {
    var base := [Prop("type", JString(if d.kind == Package then "package" else "file")),
                 Prop("topOrder", JBool(d.topOrder))];
    var withVersion := if d.kind == Package then base + [Prop("version", JString(d.version))] else base;
    if asState
    then withVersion + [Prop("resource", JString(d.resource)), Prop("sources", JArray(StringArray(d.sources)))]
    else withVersion
  }

  /** What a written dependency reads back as: a File entry has no "version"
      and so comes back with "*"; only the lock-state form keeps the sources. */
  function ReadBack(d: Dependency, asState: bool): Dependency {
    d.(version := if d.kind == File then "*" else d.version,
       sources := if asState then d.sources else [])
  }

  /** Reading back what ToJson wrote gives the dependency back, up to `ReadBack`. */
  lemma ToJsonRoundTrip(d: Dependency, asState: bool, packageName: string)
    requires WellFormed(d)
    ensures var p := ToJson(d, asState);
      FromProperty(p.name, p.value, packageName) == Ok(ReadBack(d, asState))
  {
    var p := ToJson(d, asState);
    if asState || d.kind != Package || d.topOrder {
      ObjectRoundTrip(d, asState, p.name, packageName);
    }
  }

  lemma ObjectRoundTrip(d: Dependency, asState: bool, name: string, packageName: string)
    requires WellFormed(d)
    requires !asState ==> name == d.resource
    ensures FromObject(name, ObjectProps(d, asState), packageName) == Ok(ReadBack(d, asState))
  {
    ObjectHead(d, asState, name);
    ObjectRest(d, asState, packageName);
  }

  /** The resource and version read back from a written object. */
  lemma ObjectHead(d: Dependency, asState: bool, name: string)
    requires WellFormed(d)
    requires !asState ==> name == d.resource
    ensures Head(ObjectProps(d, asState), name) == Ok((d.resource, ReadBack(d, asState).version))
  {
    ObjectResource(d, asState, name);
    ObjectVersion(d, asState);
    HeadOf(ObjectProps(d, asState), name, d.resource, ReadBack(d, asState).version);
  }

  lemma ObjectResource(d: Dependency, asState: bool, name: string)
    requires !asState ==> name == d.resource
    ensures ResourceField(ObjectProps(d, asState), name) == Ok(d.resource)
  {
    ObjectLookups(d, asState);
  }

  lemma HeadOf(props: seq<Prop>, name: string, resource: string, version: string)
    requires ResourceField(props, name) == Ok(resource) && Trim(resource) == resource
    requires VersionField(props, resource) == Ok(version)
    ensures Head(props, name) == Ok((resource, version))
  {
  }

  /** The type, topOrder and sources read back from a written object. */
  lemma ObjectRest(d: Dependency, asState: bool, packageName: string)
    ensures Rest(ObjectProps(d, asState), packageName, d.resource)
      == Ok((d.kind, d.topOrder, ReadBack(d, asState).sources))
  {
    var props := ObjectProps(d, asState);
    ObjectLookups(d, asState);
    assert TypeField(props, packageName, d.resource) == Ok(d.kind);
    ObjectSources(d, asState);
  }

  lemma ObjectVersion(d: Dependency, asState: bool)
    requires WellFormed(d)
    ensures VersionField(ObjectProps(d, asState), d.resource) == Ok(ReadBack(d, asState).version)
  {
    ObjectLookups(d, asState);
    if d.kind == Package {
      VersionFieldIs(ObjectProps(d, asState), d.resource, d.version);
    }
  }

  lemma VersionFieldIs(props: seq<Prop>, resource: string, version: string)
    requires Get(props, "version") == Some(JString(version)) && ValidVersion(version)
    ensures VersionField(props, resource) == Ok(version)
  {
  }

  lemma ObjectSources(d: Dependency, asState: bool)
    ensures SourcesField(ObjectProps(d, asState)) == Ok(ReadBack(d, asState).sources)
  {
    ObjectLookups(d, asState);
    if asState {
      StringArrayRoundTrip(d.sources, "sources");
    }
  }

  /** What each lookup of the object branch finds in a written object. */
  lemma ObjectLookups(d: Dependency, asState: bool)
    ensures var props := ObjectProps(d, asState);
      && Get(props, "type") == Some(JString(if d.kind == Package then "package" else "file"))
      && Get(props, "topOrder") == Some(JBool(d.topOrder))
      && Get(props, "version") == (if d.kind == Package then Some(JString(d.version)) else None)
      && Get(props, "resource") == (if asState then Some(JString(d.resource)) else None)
      && Get(props, "sources") == (if asState then Some(JArray(StringArray(d.sources))) else None)
  {
    var props := ObjectProps(d, asState);
    var tail: seq<Prop> := if asState then [Prop("resource", JString(d.resource)), Prop("sources", JArray(StringArray(d.sources)))] else [];
    if asState {
      StateTail(d.resource, StringArray(d.sources));
    }
    if d.kind == Package {
      assert props[2..] == [Prop("version", JString(d.version))] + tail;
      VersionHead(JString(d.version), tail);
    } else {
      assert props[2..] == tail;
    }
    GetFirst(props, "type", 0);
    GetFirst(props, "topOrder", 1);
    SkipTwo(props, "version");
    SkipTwo(props, "resource");
    SkipTwo(props, "sources");
  }

  /** The lookups past the first two properties when neither carries the key. */
  lemma SkipTwo(props: seq<Prop>, key: string)
    requires |props| >= 2 && props[0].name == "type" && props[1].name == "topOrder"
    requires key == "version" || key == "resource" || key == "sources"
    ensures Get(props, key) == Get(props[2..], key)
  {
    assert "resource" != "topOrder" by { assert "resource"[0] != "topOrder"[0]; }
    assert props[1..][1..] == props[2..];
  }

  /** A leading "version" answers its own lookup and passes the others on. */
  lemma VersionHead(v: Json, tail: seq<Prop>)
    ensures Get([Prop("version", v)] + tail, "version") == Some(v)
    ensures Get([Prop("version", v)] + tail, "resource") == Get(tail, "resource")
    ensures Get([Prop("version", v)] + tail, "sources") == Get(tail, "sources")
  {
    assert "sources" != "version" by { assert "sources"[0] != "version"[0]; }
    assert ([Prop("version", v)] + tail)[1..] == tail;
  }

  /** The lock-state tail: "resource" then "sources". */
  lemma StateTail(resource: string, sources: seq<Json>)
    ensures var tail := [Prop("resource", JString(resource)), Prop("sources", JArray(sources))];
      Get(tail, "resource") == Some(JString(resource)) && Get(tail, "sources") == Some(JArray(sources))
      && Get(tail, "version").None?
  {
    var tail := [Prop("resource", JString(resource)), Prop("sources", JArray(sources))];
    assert |"resource"| != |"sources"|;
    assert tail[1..] == [Prop("sources", JArray(sources))];
    GetAbsent(tail, "version");
  }

  /** sameAs: equal on everything but the sources. Same-as dependencies share an id
      and are written alike in a manifest. */
  function SameAs(a: Dependency, b: Dependency): (r: bool)
    ensures r ==> a.Id() == b.Id() && ToJson(a, false) == ToJson(b, false)
    ensures r <==> ReadBack(a, false) == ReadBack(b, false) && a.version == b.version
  {
    a.resource == b.resource && a.kind == b.kind && a.version == b.version && a.topOrder == b.topOrder
  }

  /** The mutable object: setters that keep `id` in step with resource and version. */
  class PackageDependency {
    var resource: string
    var kind: DependencyType
    var version: string
    var topOrder: bool
    var sources: seq<string>
    var id: string

    /** `id` is what generateId gives for the current resource and version. */
    ghost predicate Valid()
      reads this
    {
      id == GenerateId(resource, version)
    }

    /** The object's fields as a value; the id of that value is the `id` field
        whenever the object is valid. */
    function Value(): (d: Dependency)
      reads this
      ensures Valid() ==> d.Id() == id
    {
      Dependency(resource, kind, version, topOrder, sources)
    }

    /** The parameterless constructor. */
    constructor ()
      ensures Valid() && Value() == Dependency("", Package, "*", false, [])
    {
      kind := Package;
      version := "*";
      topOrder := false;
      resource := "";
      sources := [];
      id := GenerateId("", "*");
    }

    /** The Resource setter: stores the trimmed value and regenerates the id. */
    method SetResource(value: string)
      modifies this`resource, this`id
      ensures resource == Trim(value) && Trimmed(resource)
      ensures id == GenerateId(resource, version)
    {
      resource := Trim(value);
      id := GenerateId(resource, version);
    }

    /** The Version setter: refuses an unsupported version and changes nothing then. */
    method SetVersion(value: string) returns (err: Option<Error>)
      modifies this`version, this`id
      ensures err.Some? <==> !ValidVersion(value)
      ensures err.Some? ==> (err.value == UnsupportedVersion(resource)
        && version == old(version) && id == old(id))
      ensures err.None? ==> version == value && id == GenerateId(resource, version)
    {
      if ('*' in value && |value| > 1) || '^' in value || '+' in value {
        return Some(UnsupportedVersion(resource));
      }
      version := value;
      id := GenerateId(resource, version);
      return None;
    }

    /** The `(JProperty d, string packageName)` constructor, run on this object:
        on success the object holds `FromProperty`'s dependency, otherwise the
        error is the one the constructor throws. */
    method Load(name: string, value: Json, packageName: string) returns (err: Option<Error>)
      modifies this
      ensures err.None? <==> FromProperty(name, value, packageName).Ok?
      ensures err.Some? ==> err.value == FromProperty(name, value, packageName).error
      ensures err.None? ==> Valid() && Value() == FromProperty(name, value, packageName).value
    {
      kind := Package;
      version := "*";
      topOrder := false;
      resource := "";
      sources := [];
      match value {
        case JString(s) =>
          err := LoadString(name, s);
          assert FromProperty(name, value, packageName)
            == if ValidVersion(s) then Ok(Dependency(Trim(name), Package, s, false, [])) else Err(UnsupportedVersion(""));
        case JObject(props) =>
          err := LoadObject(name, props, packageName);
          assert FromProperty(name, value, packageName) == FromObject(name, props, packageName);
        case _ =>
          err := Some(BadDependencyValue(packageName, name));
      }
    }
  
    /** The string branch of the constructor: the value is the version. */
    method LoadString(name: string, s: string) returns (err: Option<Error>)
      requires |resource| == 0 && kind == Package && !topOrder && sources == []
      modifies this`resource, this`version, this`id
      ensures err.None? <==> ValidVersion(s)
      ensures err.Some? ==> err.value == UnsupportedVersion("")
      ensures err.None? ==> resource == Trim(name) && version == s && id == GenerateId(resource, version)
    {
      err := SetVersion(s);
      if err.Some? { return; }
      SetResource(name);
    }

    /** The object branch of the constructor, one property at a time through the setters. */
    method LoadObject(name: string, props: seq<Prop>, packageName: string) returns (err: Option<Error>)
      requires version == "*" && kind == Package && !topOrder && sources == []
      modifies this
      ensures err.None? <==> FromObject(name, props, packageName).Ok?
      ensures err.Some? ==> err.value == FromObject(name, props, packageName).error
      ensures err.None? ==> Valid() && Value() == FromObject(name, props, packageName).value
    {
      err := LoadResourceAndVersion(name, props);
      if err.Some? { return; }
      err := LoadRest(props, packageName);
    }

    /** The "resource" and "version" properties, through the two setters. */
    method LoadResourceAndVersion(name: string, props: seq<Prop>) returns (err: Option<Error>)
      requires version == "*"
      modifies this`resource, this`version, this`id
      ensures var h := Head(props, name);
        && (err.None? <==> h.Ok?)
        && (h.Err? ==> err == Some(h.error))
        && (h.Ok? ==> resource == h.value.0 && version == h.value.1 && Valid())
    {
      var rawResource := ResourceField(props, name);
      if rawResource.Err? { return Some(rawResource.error); }
      SetResource(rawResource.value);
      var versionToken := Get(props, "version");
      if versionToken.Some? {
        var c := AsString(versionToken.value, "version");
        if c.Err? { return Some(c.error); }
        err := SetVersion(c.value);
      } else {
        err := None;
      }
    }

    /** The "type", "topOrder" and "sources" properties. */
    method LoadRest(props: seq<Prop>, packageName: string) returns (err: Option<Error>)
      requires sources == [] && !topOrder && kind == Package
      modifies this`kind, this`topOrder, this`sources
      ensures var r := Rest(props, packageName, resource);
        && (err.None? <==> r.Ok?)
        && (r.Err? ==> err == Some(r.error))
        && (r.Ok? ==> kind == r.value.0 && topOrder == r.value.1 && sources == r.value.2)
    {
      var k := TypeField(props, packageName, resource);
      if k.Err? { return Some(k.error); }
      kind := k.value;
      var t := TopOrderField(props);
      if t.Err? { return Some(t.error); }
      topOrder := t.value;
      var sourcesToken := Get(props, "sources");
      if sourcesToken.Some? && sourcesToken.value.JArray? {
        err := LoadSources(sourcesToken.value.items);
      } else {
        err := None;
      }
    }

    /** `foreach (string src in v["sources"]) Sources.Add(src)`. */
    method LoadSources(items: seq<Json>) returns (err: Option<Error>)
      modifies this`sources
      ensures err.None? <==> AsStrings(items, "sources").Ok?
      ensures err.Some? ==> err.value == AsStrings(items, "sources").error
      ensures err.None? ==> sources == old(sources) + AsStrings(items, "sources").value
    {
      var i := 0;
      while i < |items|
        invariant 0 <= i <= |items|
        invariant AsStrings(items[..i], "sources").Ok?
        invariant sources == old(sources) + AsStrings(items[..i], "sources").value
      {
        var c := AsString(items[i], "sources");
        if c.Err? {
          AsStringsSplit(items, "sources", i);
          return Some(c.error);
        }
        sources := sources + [c.value];
        AsStringsSnoc(items[..i + 1], "sources");
        assert items[..i + 1][..i] == items[..i];
        i := i + 1;
      }
      assert items[..i] == items;
      return None;
    }
  }
}
