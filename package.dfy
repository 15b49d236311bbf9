/** Package.cs: the project configuration (wlpm.json and every fetched manifest).
    Reading is field by field over a parsed document; writing leaves out what the
    defaults already say. The text parser is not modelled: a document is a `Json`. */
module Packages {
  import opened Wrappers
  import opened Json
  import D = Dependencies

  const DefaultTarget: string := "war3map.lua"
  const DefaultSourceExtensions: string := "*.lua"

  /** The properties of a Package, as values. */
  datatype Config = Config(
    title: string,
    author: string,
    license: string,
    dependencies: seq<D.Dependency>,
    sources: seq<string>,
    target: string,
    afterBuild: string,
    insertModuleLoader: bool,
    allowHosts: seq<string>,
    sourceExtensions: string)

  /** What initDefaults sets. */
  const Defaults: Config := Config("project", "", "", [], [], DefaultTarget, "", true, [], DefaultSourceExtensions)

  /** `if (json[key] != null) Field = (string)json[key];` */
  function StringField(props: seq<Prop>, key: string, current: string): (r: Result<string>)
  {
    match Get(props, key)
    case None => Ok(current)
    case Some(j) => AsString(j, key)
  }

  /** `if (json[key] != null) Field = (bool)json[key];` */
  function BoolField(props: seq<Prop>, key: string, current: bool): (r: Result<bool>)
  {
    match Get(props, key)
    case None => Ok(current)
    case Some(j) => AsBool(j, key)
  }

  /** A present string property holds the field's value, an absent one leaves the default. */
  predicate StringOverride(props: seq<Prop>, key: string, default: string, value: string) {
    match Get(props, key)
    case None => value == default
    case Some(j) => j == JString(value)
  }

  /** Every scalar of `c` is what the document says, or the default where it says nothing. */
  predicate Overrides(props: seq<Prop>, c: Config) {
    && StringOverride(props, "title", Defaults.title, c.title)
    && StringOverride(props, "author", Defaults.author, c.author)
    && StringOverride(props, "license", Defaults.license, c.license)
    && StringOverride(props, "target", Defaults.target, c.target)
    && StringOverride(props, "afterBuild", Defaults.afterBuild, c.afterBuild)
    && StringOverride(props, "sourceExtensions", Defaults.sourceExtensions, c.sourceExtensions)
    && match Get(props, "insertModuleLoader")
       case None => c.insertModuleLoader == Defaults.insertModuleLoader
       case Some(j) => j == JBool(c.insertModuleLoader)
  }

  /** The scalar assignments at the top of fromJson, over the defaults. */
  function Scalars(props: seq<Prop>): (r: Result<Config>)
    ensures r.Ok? ==> r.value.dependencies == [] && r.value.sources == [] && r.value.allowHosts == []
  {
    var header :- Header(props);
    var settings :- Settings(props);
    Ok(Config(header.0, header.1, header.2, [], [], settings.0, settings.1, settings.3, [], settings.2))
  }

  /** "title", "author" and "license". */
  function Header(props: seq<Prop>): Result<(string, string, string)> {
    var title :- StringField(props, "title", Defaults.title);
    var author :- StringField(props, "author", Defaults.author);
    var license :- StringField(props, "license", Defaults.license);
    Ok((title, author, license))
  }

  /** "target", "afterBuild", "sourceExtensions" and "insertModuleLoader". */
  function Settings(props: seq<Prop>): Result<(string, string, string, bool)> {
    var target :- StringField(props, "target", Defaults.target);
    var afterBuild :- StringField(props, "afterBuild", Defaults.afterBuild);
    var sourceExtensions :- StringField(props, "sourceExtensions", Defaults.sourceExtensions);
    var insertModuleLoader :- BoolField(props, "insertModuleLoader", Defaults.insertModuleLoader);
    Ok((target, afterBuild, sourceExtensions, insertModuleLoader))
  }

  /** Scalars is Header, then Settings, each stopping at its first error. */
  lemma ScalarsParts(props: seq<Prop>)
    ensures Header(props).Err? ==> Scalars(props) == Err(Header(props).error)
    ensures Header(props).Ok? && Settings(props).Err? ==> Scalars(props) == Err(Settings(props).error)
    ensures Header(props).Ok? && Settings(props).Ok? ==>
      var h := Header(props).value;
      var s := Settings(props).value;
      Scalars(props) == Ok(Config(h.0, h.1, h.2, [], [], s.0, s.1, s.3, [], s.2))
  {
  }

  /** A `foreach` that builds one item per element, in order, and stops at the first
      element that throws. */
  function ParseEach<X, T>(xs: seq<X>, f: X -> Result<T>): (r: Result<seq<T>>)
    ensures r.Ok? ==> |r.value| == |xs|
  {
    if xs == [] then Ok([])
    else
      var init :- ParseEach(xs[..|xs| - 1], f);
      var last :- f(xs[|xs| - 1]);
      Ok(init + [last])
  }

  /** The loop gets through iff every element parses. */
  lemma {:induction false} ParseEachOk<X, T>(xs: seq<X>, f: X -> Result<T>)
    ensures ParseEach(xs, f).Ok? <==> forall i :: 0 <= i < |xs| ==> f(xs[i]).Ok?
    decreases |xs|
  {
    if xs != [] {
      var init := xs[..|xs| - 1];
      ParseEachOk(init, f);
      assert forall i :: 0 <= i < |init| ==> init[i] == xs[i];
    }
  }

  /** The i-th item is what the i-th element parses to. */
  lemma {:induction false} ParseEachItems<X, T>(xs: seq<X>, f: X -> Result<T>)
    requires ParseEach(xs, f).Ok?
    ensures forall i :: 0 <= i < |xs| ==> f(xs[i]) == Ok(ParseEach(xs, f).value[i])
    decreases |xs|
  {
    if xs != [] {
      var init := xs[..|xs| - 1];
      ParseEachItems(init, f);
      assert forall i :: 0 <= i < |init| ==> init[i] == xs[i];
    }
  }

  /** The first element that throws decides the error. */
  lemma {:induction false} ParseEachStops<X, T>(xs: seq<X>, f: X -> Result<T>, i: nat)
    requires i < |xs| && ParseEach(xs[..i], f).Ok? && f(xs[i]).Err?
    ensures ParseEach(xs, f) == Err(f(xs[i]).error)
    decreases |xs|
  {
    assert xs[..|xs| - 1][..i] == xs[..i];
    if i < |xs| - 1 {
      ParseEachStops(xs[..|xs| - 1], f, i);
    }
  }

  /** One more element that parses adds its item. */
  lemma ParseEachSnoc<X, T>(xs: seq<X>, f: X -> Result<T>, i: nat)
    requires i < |xs| && ParseEach(xs[..i], f).Ok? && f(xs[i]).Ok?
    ensures ParseEach(xs[..i + 1], f) == Ok(ParseEach(xs[..i], f).value + [f(xs[i]).value])
  {
    assert xs[..i + 1][..i] == xs[..i];
  }

  /** `new PackageDependency(d, Title)` for one property. */
  function ParseDependency(title: string): (f: Prop -> Result<D.Dependency>)
    ensures forall p :: f(p) == D.FromProperty(p.name, p.value, title)
  {
    (p: Prop) => D.FromProperty(p.name, p.value, title)
  }

  /** The "dependencies" property: absent means none; anything but an object throws. */
  function DependenciesField(props: seq<Prop>, title: string): (r: Result<seq<D.Dependency>>)
    ensures Get(props, "dependencies").None? ==> r == Ok([])
    ensures Get(props, "dependencies").Some? && !Get(props, "dependencies").value.JObject? ==>
      r == Err(BadDependenciesProperty(title))
  {
    match Get(props, "dependencies")
    case None => Ok([])
    case Some(JObject(ds)) => ParseEach(ds, ParseDependency(title))
    case Some(_) => Err(BadDependenciesProperty(title))
  }

  /** The "allowHosts" property: absent means none; anything but an array throws. */
  function AllowHostsField(props: seq<Prop>, title: string): (r: Result<seq<string>>)
    ensures Get(props, "allowHosts").None? ==> r == Ok([])
    ensures Get(props, "allowHosts").Some? && !Get(props, "allowHosts").value.JArray? ==>
      r == Err(BadAllowHostsProperty(title))
  {
    match Get(props, "allowHosts")
    case None => Ok([])
    case Some(JArray(items)) => AsStrings(items, "allowHosts")
    case Some(_) => Err(BadAllowHostsProperty(title))
  }

  /** `new Package(jsonStr)`: initDefaults, then fromJson on the parsed document. */
  function FromJson(j: Json): (r: Result<Config>)
    ensures !j.JObject? ==> r == Err(NotAnObject)
  {
    if !j.JObject? then Err(NotAnObject)
    else
      var scalars :- Scalars(j.props);
      WithLists(j.props, scalars)
  }

  /** The three lists of fromJson, read after the scalars. The "sources" property is
      read as a dependency's is: an array or nothing. */
  function WithLists(props: seq<Prop>, scalars: Config): (r: Result<Config>)
    ensures r.Ok? ==> SameScalars(r.value, scalars)
    ensures r.Ok? ==> Get(props, "dependencies").None? || Get(props, "dependencies").value.JObject?
    ensures r.Ok? ==> Get(props, "allowHosts").None? || Get(props, "allowHosts").value.JArray?
    ensures r.Ok? && !(Get(props, "sources").Some? && Get(props, "sources").value.JArray?) ==>
      r.value.sources == []
  {
    var dependencies :- DependenciesField(props, scalars.title);
    var allowHosts :- AllowHostsField(props, scalars.title);
    var sources :- D.SourcesField(props);
    Ok(scalars.(dependencies := dependencies, allowHosts := allowHosts, sources := sources))
  }

  /** Every scalar present in the document overrides its default; every absent one
      keeps it. */
  lemma FromJsonOverrides(j: Json)
    requires FromJson(j).Ok?
    ensures Overrides(j.props, FromJson(j).value)
  {
    ScalarsOverride(j.props);
    var s := Scalars(j.props).value;
    assert SameScalars(FromJson(j).value, s);
  }

  /** Two configurations that differ at most in their lists. */
  predicate SameScalars(a: Config, b: Config) {
    a.title == b.title && a.author == b.author && a.license == b.license && a.target == b.target
    && a.afterBuild == b.afterBuild && a.sourceExtensions == b.sourceExtensions
    && a.insertModuleLoader == b.insertModuleLoader
  }

  lemma ScalarsOverride(props: seq<Prop>)
    requires Scalars(props).Ok?
    ensures Overrides(props, Scalars(props).value)
  {
    HeaderOverrides(props);
    SettingsOverride(props);
  }

  lemma HeaderOverrides(props: seq<Prop>)
    requires Header(props).Ok?
    ensures var h := Header(props).value;
      && StringOverride(props, "title", Defaults.title, h.0)
      && StringOverride(props, "author", Defaults.author, h.1)
      && StringOverride(props, "license", Defaults.license, h.2)
  {
    StringFieldOverrides(props, "title", Defaults.title);
    StringFieldOverrides(props, "author", Defaults.author);
    StringFieldOverrides(props, "license", Defaults.license);
  }

  lemma SettingsOverride(props: seq<Prop>)
    requires Settings(props).Ok?
    ensures var s := Settings(props).value;
      && StringOverride(props, "target", Defaults.target, s.0)
      && StringOverride(props, "afterBuild", Defaults.afterBuild, s.1)
      && StringOverride(props, "sourceExtensions", Defaults.sourceExtensions, s.2)
  {
    StringFieldOverrides(props, "target", Defaults.target);
    StringFieldOverrides(props, "afterBuild", Defaults.afterBuild);
    StringFieldOverrides(props, "sourceExtensions", Defaults.sourceExtensions);
  }

  lemma StringFieldOverrides(props: seq<Prop>, key: string, default: string)
    requires StringField(props, key, default).Ok?
    ensures StringOverride(props, key, default, StringField(props, key, default).value)
  {
  }

  /** An empty document leaves every default in place. */
  lemma EmptyDocument()
    ensures FromJson(JObject([])) == Ok(Defaults)
  {
  }

  /** getDefaultConfiguration, as the document its text parses to. */
  function DefaultConfiguration(): (j: Json)
    ensures j.JObject?
  {
    JObject([Prop("title", JString("project")), Prop("dependencies", JObject([]))])
  }

  /** The default configuration reads back as a fresh Package. */
  lemma DefaultConfigurationIsDefault()
    ensures FromJson(DefaultConfiguration()) == Ok(Defaults)
  {
    var props := DefaultConfiguration().props;
    GetFirst(props, "title", 0);
    GetFirst(props, "dependencies", 1);
    DefaultConfigurationLacks("author");
    DefaultConfigurationLacks("license");
    DefaultConfigurationLacks("target");
    DefaultConfigurationLacks("afterBuild");
    DefaultConfigurationLacks("sourceExtensions");
    DefaultConfigurationLacks("insertModuleLoader");
    DefaultConfigurationLacks("allowHosts");
    DefaultConfigurationLacks("sources");
    assert Header(props) == Ok(("project", "", ""));
    assert Settings(props) == Ok((DefaultTarget, "", DefaultSourceExtensions, true));
    assert Scalars(props) == Ok(Defaults);
  }

  lemma DefaultConfigurationLacks(key: string)
    requires |key| != |"title"| && |key| != |"dependencies"|
    ensures Get(DefaultConfiguration().props, key).None?
  {
    GetAbsent(DefaultConfiguration().props, key);
  }

  // ---- ToJson ----

  /** No two dependencies share a resource, the name each is written under. */
  predicate DistinctResources(deps: seq<D.Dependency>) {
    forall i, j :: 0 <= i < j < |deps| ==> deps[i].resource != deps[j].resource
  }

  /** Each dependency's manifest entry, `dep.ToJson()`. */
  function DependencyEntries(deps: seq<D.Dependency>): (r: seq<Prop>)
    ensures |r| == |deps|
    ensures forall i :: 0 <= i < |deps| ==> r[i].name == deps[i].resource
  {
    seq(|deps|, i requires 0 <= i < |deps| => D.ToJson(deps[i], false))
  }

  /** `foreach (dep in Dependencies) deps.Add(dep.ToJson())`: JObject.Add throws on a
      name that is already there. */
  function DependencyProps(deps: seq<D.Dependency>): (r: Result<seq<Prop>>)
    ensures r.Ok? ==> r.value == DependencyEntries(deps)
    ensures r.Err? ==> r.error.DuplicateKey?
  {
    AddAll(DependencyEntries(deps))
  }

  /** The dependencies are written iff no two share a resource. */
  lemma DependencyPropsOk(deps: seq<D.Dependency>)
    ensures DependencyProps(deps).Ok? <==> DistinctResources(deps)
  {
    AddAllOk(DependencyEntries(deps));
  }

  /** One conditional `result.Add(new JProperty(key, value))`. */
  datatype Entry = Entry(key: string, emit: bool, value: Json)

  /** The properties ToJson adds, in order, each with the condition it is added under. */
  function Entries(c: Config, deps: seq<Prop>): (r: seq<Entry>)
    ensures |r| == |Keys|
    ensures forall i :: 0 <= i < |r| ==> r[i].key == Keys[i]
  {
    [ Entry("title", |c.title| > 0, JString(c.title)),
      Entry("author", |c.author| > 0, JString(c.author)),
      Entry("license", |c.license| > 0, JString(c.license)),
      Entry("dependencies", true, JObject(deps)),
      Entry("sources", |c.sources| > 0, JArray(StringArray(c.sources))),
      Entry("target", |c.target| > 0 && c.target != DefaultTarget, JString(c.target)),
      Entry("afterBuild", |c.afterBuild| > 0, JString(c.afterBuild)),
      Entry("insertModuleLoader", !c.insertModuleLoader, JBool(false)),
      Entry("sourceExtensions", |c.sourceExtensions| > 0 && c.sourceExtensions != DefaultSourceExtensions,
            JString(c.sourceExtensions)),
      Entry("allowHosts", |c.allowHosts| > 0, JArray(StringArray(c.allowHosts))) ]
  }

  const Keys: seq<string> := ["title", "author", "license", "dependencies", "sources", "target",
                              "afterBuild", "insertModuleLoader", "sourceExtensions", "allowHosts"]

  /** The keys ToJson writes are pairwise different. */
  lemma KeysDistinct()
    ensures forall i, j :: 0 <= i < j < |Keys| ==> Keys[i] != Keys[j]
  {
    forall i, j | 0 <= i < j < |Keys|
      ensures Keys[i] != Keys[j]
    {
      assert |Keys[i]| != |Keys[j]| || Keys[i][1] != Keys[j][1];
    }
  }

  /** The property an entry adds, if any. */
  function Added(e: Entry): (r: seq<Prop>)
    ensures |r| <= 1
  {
    if e.emit then [Prop(e.key, e.value)] else []
  }

  /** The properties of the entries that are added. */
  function Emitted(es: seq<Entry>): (r: seq<Prop>)
    ensures |r| <= |es|
  {
    if es == [] then [] else Added(es[0]) + Emitted(es[1..])
  }

  /** Looking past the first entry. */
  lemma GetAdded(e: Entry, rest: seq<Prop>, key: string)
    ensures Get(Added(e) + rest, key) == if e.emit && e.key == key then Some(e.value) else Get(rest, key)
  {
    if e.emit {
      assert (Added(e) + rest)[1..] == rest;
    } else {
      assert Added(e) + rest == rest;
    }
  }

  /** An entry whose key no other entry has is found iff it was added. */
  lemma {:induction false} GetEmitted(es: seq<Entry>, i: nat)
    requires i < |es|
    requires forall j :: 0 <= j < |es| && j != i ==> es[j].key != es[i].key
    ensures Get(Emitted(es), es[i].key) == if es[i].emit then Some(es[i].value) else None
    decreases |es|
  {
    var key := es[i].key;
    GetAdded(es[0], Emitted(es[1..]), key);
    if i == 0 {
      forall j | 0 <= j < |es[1..]| ensures es[1..][j].key != key {
        assert es[1..][j] == es[j + 1];
      }
      EmittedAbsent(es[1..], key);
    } else {
      GetEmitted(es[1..], i - 1);
    }
  }

  lemma {:induction false} EmittedAbsent(es: seq<Entry>, key: string)
    requires forall j :: 0 <= j < |es| ==> es[j].key != key
    ensures Get(Emitted(es), key).None?
    decreases |es|
  {
    if es != [] {
      GetAdded(es[0], Emitted(es[1..]), key);
      EmittedAbsent(es[1..], key);
    }
  }

  /** Package.ToJson: "dependencies" always, every other property only when it differs
      from what reading it back would default to. */
  function ToJson(c: Config): (r: Result<Json>)
    ensures r.Ok? ==> r.value.JObject?
  {
    var deps :- DependencyProps(c.dependencies);
    Ok(JObject(Emitted(Entries(c, deps))))
  }

  /** ToJson throws exactly when two dependencies share a resource. */
  lemma ToJsonOk(c: Config)
    ensures ToJson(c).Ok? <==> DistinctResources(c.dependencies)
    ensures ToJson(c).Err? ==> ToJson(c).error.DuplicateKey?
  {
    DependencyPropsOk(c.dependencies);
  }

  /** What each key finds in a written configuration. */
  lemma ToJsonFinds(c: Config, i: nat)
    requires ToJson(c).Ok? && i < |Keys|
    ensures var es := Entries(c, DependencyProps(c.dependencies).value);
      Get(ToJson(c).value.props, Keys[i]) == if es[i].emit then Some(es[i].value) else None
  {
    var es := Entries(c, DependencyProps(c.dependencies).value);
    KeysDistinct();
    GetEmitted(es, i);
  }

  /** What a written configuration holds under each key: "dependencies" always, and
      every other property only when it is not empty and not what reading it back
      would default to. */
  predicate Describes(props: seq<Prop>, c: Config) {
    && Get(props, "title") == (if c.title != "" then Some(JString(c.title)) else None)
    && Get(props, "author") == (if c.author != "" then Some(JString(c.author)) else None)
    && Get(props, "license") == (if c.license != "" then Some(JString(c.license)) else None)
    && Get(props, "dependencies") == Some(JObject(DependencyEntries(c.dependencies)))
    && Get(props, "sources") == (if c.sources != [] then Some(JArray(StringArray(c.sources))) else None)
    && Get(props, "target") ==
         (if c.target != "" && c.target != DefaultTarget then Some(JString(c.target)) else None)
    && Get(props, "afterBuild") == (if c.afterBuild != "" then Some(JString(c.afterBuild)) else None)
    && Get(props, "insertModuleLoader") == (if !c.insertModuleLoader then Some(JBool(false)) else None)
    && Get(props, "sourceExtensions") ==
         (if c.sourceExtensions != "" && c.sourceExtensions != DefaultSourceExtensions
          then Some(JString(c.sourceExtensions)) else None)
    && Get(props, "allowHosts") == (if c.allowHosts != [] then Some(JArray(StringArray(c.allowHosts))) else None)
  }

  lemma ToJsonDescribes(c: Config)
    requires ToJson(c).Ok?
    ensures Describes(ToJson(c).value.props, c)
  {
    ToJsonFinds(c, 0);
    ToJsonFinds(c, 1);
    ToJsonFinds(c, 2);
    ToJsonFinds(c, 3);
    ToJsonFinds(c, 4);
    ToJsonFinds(c, 5);
    ToJsonFinds(c, 6);
    ToJsonFinds(c, 7);
    ToJsonFinds(c, 8);
    ToJsonFinds(c, 9);
  }

  /** What reading a written configuration gives: the dependencies come back as
      written in a manifest, everything else as it was. */
  function Written(c: Config): Config {
    c.(dependencies := ReadBacks(c.dependencies))
  }

  /** Each dependency as its manifest entry reads back. */
  function ReadBacks(deps: seq<D.Dependency>): seq<D.Dependency> {
    seq(|deps|, i requires 0 <= i < |deps| => D.ReadBack(deps[i], false))
  }

  /** fromJson(ToJson(p)) gives p back, for a title, target and sourceExtensions that
      are not empty (an empty one is left out and comes back as the default), well-formed
      dependencies with distinct resources, and up to what a manifest entry keeps. */
  lemma ToJsonRoundTrip(c: Config)
    requires c.title != "" && c.target != "" && c.sourceExtensions != ""
    requires DistinctResources(c.dependencies)
    requires forall i :: 0 <= i < |c.dependencies| ==> D.WellFormed(c.dependencies[i])
    ensures ToJson(c).Ok? && FromJson(ToJson(c).value) == Ok(Written(c))
  {
    ToJsonOk(c);
    ToJsonDescribes(c);
    ReadDescribed(ToJson(c).value.props, c);
  }

  /** Reading any document that describes `c` gives `c` back, up to `Written`. */
  lemma ReadDescribed(props: seq<Prop>, c: Config)
    requires Describes(props, c)
    requires c.title != "" && c.target != "" && c.sourceExtensions != ""
    requires forall i :: 0 <= i < |c.dependencies| ==> D.WellFormed(c.dependencies[i])
    ensures FromJson(JObject(props)) == Ok(Written(c))
  {
    ReadDescribedScalars(props, c);
    var s := Config(c.title, c.author, c.license, [], [], c.target, c.afterBuild,
                    c.insertModuleLoader, [], c.sourceExtensions);
    assert Scalars(props) == Ok(s);
    ReadDescribedLists(props, c, s);
  }

  lemma ReadDescribedLists(props: seq<Prop>, c: Config, s: Config)
    requires Describes(props, c)
    requires forall i :: 0 <= i < |c.dependencies| ==> D.WellFormed(c.dependencies[i])
    requires s == Config(c.title, c.author, c.license, [], [], c.target, c.afterBuild,
                         c.insertModuleLoader, [], c.sourceExtensions)
    ensures WithLists(props, s) == Ok(Written(c))
  {
    DescribedDependencies(props, c);
    DescribedAllowHosts(props, c);
    DescribedSources(props, c);
  }

  lemma DescribedDependencies(props: seq<Prop>, c: Config)
    requires Get(props, "dependencies") == Some(JObject(DependencyEntries(c.dependencies)))
    requires forall i :: 0 <= i < |c.dependencies| ==> D.WellFormed(c.dependencies[i])
    ensures DependenciesField(props, c.title) == Ok(ReadBacks(c.dependencies))
  {
    ParseWritten(c.dependencies, c.title);
  }

  lemma DescribedAllowHosts(props: seq<Prop>, c: Config)
    requires Get(props, "allowHosts") == (if c.allowHosts != [] then Some(JArray(StringArray(c.allowHosts))) else None)
    ensures AllowHostsField(props, c.title) == Ok(c.allowHosts)
  {
    StringArrayRoundTrip(c.allowHosts, "allowHosts");
  }

  lemma DescribedSources(props: seq<Prop>, c: Config)
    requires Get(props, "sources") == (if c.sources != [] then Some(JArray(StringArray(c.sources))) else None)
    ensures D.SourcesField(props) == Ok(c.sources)
  {
    StringArrayRoundTrip(c.sources, "sources");
  }

  lemma ReadDescribedScalars(props: seq<Prop>, c: Config)
    requires Describes(props, c)
    requires c.title != "" && c.target != "" && c.sourceExtensions != ""
    ensures Header(props) == Ok((c.title, c.author, c.license))
    ensures Settings(props) == Ok((c.target, c.afterBuild, c.sourceExtensions, c.insertModuleLoader))
  {
  }

  /** The written dependencies parse back one by one. */
  lemma ParseWritten(deps: seq<D.Dependency>, title: string)
    requires forall i :: 0 <= i < |deps| ==> D.WellFormed(deps[i])
    ensures ParseEach(DependencyEntries(deps), ParseDependency(title)) == Ok(ReadBacks(deps))
  {
    var ps := DependencyEntries(deps);
    var f := ParseDependency(title);
    forall i | 0 <= i < |ps|
      ensures f(ps[i]) == Ok(D.ReadBack(deps[i], false))
    {
      D.ToJsonRoundTrip(deps[i], false, title);
    }
    ParseEachOk(ps, f);
    var r := ParseEach(ps, f);
    ParseEachItems(ps, f);
    forall i | 0 <= i < |deps|
      ensures r.value[i] == ReadBacks(deps)[i]
    {
      assert f(ps[i]) == Ok(r.value[i]);
    }
    assert r.value == ReadBacks(deps);
  }

  /** The Package object: initDefaults and fromJson assign its properties one by one
      and fill its lists in loops. */
  class Package {
    var title: string
    var author: string
    var license: string
    var dependencies: seq<D.Dependency>
    var sources: seq<string>
    var target: string
    var afterBuild: string
    var insertModuleLoader: bool
    var allowHosts: seq<string>
    var sourceExtensions: string

    function Value(): (c: Config)
      reads this
      ensures c.title == title && c.dependencies == dependencies
    {
      Config(title, author, license, dependencies, sources, target, afterBuild,
             insertModuleLoader, allowHosts, sourceExtensions)
    }

    /** `new Package()`. */
    constructor ()
      ensures Value() == Defaults
    {
      new;
      InitDefaults();
    }

    method InitDefaults()
      modifies this
      ensures Value() == Defaults
    {
      title := "project";
      author := "";
      license := "";
      dependencies := [];
      sources := [];
      target := DefaultTarget;
      afterBuild := "";
      insertModuleLoader := true;
      sourceExtensions := DefaultSourceExtensions;
      allowHosts := [];
    }

    /** `new Package(jsonStr)` on a parsed document: the object holds `FromJson`'s
        configuration, or the error is the one the constructor throws. */
    method Load(j: Json) returns (err: Option<Error>)
      modifies this
      ensures err.None? <==> FromJson(j).Ok?
      ensures err.Some? ==> err.value == FromJson(j).error
      ensures err.None? ==> Value() == FromJson(j).value
    {
      InitDefaults();
      err := ReadJson(j);
    }

    /** fromJson, run on a freshly defaulted object. */
    method ReadJson(j: Json) returns (err: Option<Error>)
      requires Value() == Defaults
      modifies this
      ensures err.None? <==> FromJson(j).Ok?
      ensures err.Some? ==> err.value == FromJson(j).error
      ensures err.None? ==> Value() == FromJson(j).value
    {
      if !j.JObject? {
        return Some(NotAnObject);
      }
      var props := j.props;
      err := ReadScalars(props);
      if err.Some? {
        return;
      }
      err := ReadLists(props);
    }

    /** The dependencies, allowHosts and sources, after the scalars. */
    method ReadLists(props: seq<Prop>) returns (err: Option<Error>)
      requires dependencies == [] && allowHosts == [] && sources == []
      modifies this`dependencies, this`allowHosts, this`sources
      ensures err.None? <==> WithLists(props, old(Value())).Ok?
      ensures err.Some? ==> err.value == WithLists(props, old(Value())).error
      ensures err.None? ==> Value() == WithLists(props, old(Value())).value
    {
      err := ReadDependencies(props);
      if err.Some? {
        return;
      }
      err := ReadAllowHosts(props);
      if err.Some? {
        return;
      }
      err := ReadSources(props);
    }

    /** The seven `if (json[key] != null)` assignments. */
    method ReadScalars(props: seq<Prop>) returns (err: Option<Error>)
      requires Value() == Defaults
      modifies this`title, this`author, this`license, this`target, this`afterBuild,
        this`sourceExtensions, this`insertModuleLoader
      ensures err.None? <==> Scalars(props).Ok?
      ensures err.Some? ==> err.value == Scalars(props).error
      ensures err.None? ==> Value() == Scalars(props).value
    {
      ScalarsParts(props);
      err := ReadHeader(props);
      if err.Some? {
        return;
      }
      err := ReadSettings(props);
    }

    method ReadHeader(props: seq<Prop>) returns (err: Option<Error>)
      requires title == Defaults.title && author == Defaults.author && license == Defaults.license
      modifies this`title, this`author, this`license
      ensures err.None? <==> Header(props).Ok?
      ensures err.Some? ==> err.value == Header(props).error
      ensures err.None? ==> (title, author, license) == Header(props).value
    {
      var s := StringField(props, "title", title);
      if s.Err? { return Some(s.error); }
      title := s.value;
      s := StringField(props, "author", author);
      if s.Err? { return Some(s.error); }
      author := s.value;
      s := StringField(props, "license", license);
      if s.Err? { return Some(s.error); }
      license := s.value;
      return None;
    }

    method ReadSettings(props: seq<Prop>) returns (err: Option<Error>)
      requires target == Defaults.target && afterBuild == Defaults.afterBuild
      requires sourceExtensions == Defaults.sourceExtensions && insertModuleLoader == Defaults.insertModuleLoader
      modifies this`target, this`afterBuild, this`sourceExtensions, this`insertModuleLoader
      ensures err.None? <==> Settings(props).Ok?
      ensures err.Some? ==> err.value == Settings(props).error
      ensures err.None? ==> (target, afterBuild, sourceExtensions, insertModuleLoader) == Settings(props).value
    {
      var s := StringField(props, "target", target);
      if s.Err? { return Some(s.error); }
      target := s.value;
      s := StringField(props, "afterBuild", afterBuild);
      if s.Err? { return Some(s.error); }
      afterBuild := s.value;
      s := StringField(props, "sourceExtensions", sourceExtensions);
      if s.Err? { return Some(s.error); }
      sourceExtensions := s.value;
      var b := BoolField(props, "insertModuleLoader", insertModuleLoader);
      if b.Err? { return Some(b.error); }
      insertModuleLoader := b.value;
      return None;
    }

    /** The "dependencies" object, one `new PackageDependency(d, Title)` per property. */
    method ReadDependencies(props: seq<Prop>) returns (err: Option<Error>)
      requires dependencies == []
      modifies this`dependencies
      ensures err.None? <==> DependenciesField(props, title).Ok?
      ensures err.Some? ==> err.value == DependenciesField(props, title).error
      ensures err.None? ==> dependencies == DependenciesField(props, title).value
    {
      var token := Get(props, "dependencies");
      if token.None? {
        return None;
      }
      if !token.value.JObject? {
        return Some(BadDependenciesProperty(title));
      }
      var ps := token.value.props;
      ghost var f := ParseDependency(title);
      var i := 0;
      while i < |ps|
        invariant 0 <= i <= |ps|
        invariant ParseEach(ps[..i], f).Ok?
        invariant dependencies == ParseEach(ps[..i], f).value
      {
        var d := ReadDependency(ps[i], title);
        if d.Err? {
          ParseEachStops(ps, f, i);
          return Some(d.error);
        }
        ParseEachSnoc(ps, f, i);
        dependencies := dependencies + [d.value];
        i := i + 1;
      }
      assert ps[..i] == ps;
      return None;
    }

    /** One `new PackageDependency(d, Title)`: the object built, as a value. */
    method ReadDependency(p: Prop, title: string) returns (r: Result<D.Dependency>)
      ensures r == D.FromProperty(p.name, p.value, title)
    {
      var d := new D.PackageDependency();
      var e := d.Load(p.name, p.value, title);
      if e.Some? {
        return Err(e.value);
      }
      return Ok(d.Value());
    }

    /** The "allowHosts" array, one cast string per item. */
    method ReadAllowHosts(props: seq<Prop>) returns (err: Option<Error>)
      requires allowHosts == []
      modifies this`allowHosts
      ensures err.None? <==> AllowHostsField(props, title).Ok?
      ensures err.Some? ==> err.value == AllowHostsField(props, title).error
      ensures err.None? ==> allowHosts == AllowHostsField(props, title).value
    {
      var token := Get(props, "allowHosts");
      if token.None? {
        return None;
      }
      if !token.value.JArray? {
        return Some(BadAllowHostsProperty(title));
      }
      var items := token.value.items;
      var i := 0;
      while i < |items|
        invariant 0 <= i <= |items|
        invariant AsStrings(items[..i], "allowHosts").Ok?
        invariant allowHosts == AsStrings(items[..i], "allowHosts").value
      {
        var c := AsString(items[i], "allowHosts");
        if c.Err? {
          AsStringsSplit(items, "allowHosts", i);
          return Some(c.error);
        }
        allowHosts := allowHosts + [c.value];
        assert items[..i + 1][..i] == items[..i];
        AsStringsSnoc(items[..i + 1], "allowHosts");
        i := i + 1;
      }
      assert items[..i] == items;
      return None;
    }

    /** The "sources" array when there is one, one cast string per item. */
    method ReadSources(props: seq<Prop>) returns (err: Option<Error>)
      requires sources == []
      modifies this`sources
      ensures err.None? <==> D.SourcesField(props).Ok?
      ensures err.Some? ==> err.value == D.SourcesField(props).error
      ensures err.None? ==> sources == D.SourcesField(props).value
    {
      var token := Get(props, "sources");
      if !(token.Some? && token.value.JArray?) {
        return None;
      }
      var items := token.value.items;
      var i := 0;
      while i < |items|
        invariant 0 <= i <= |items|
        invariant AsStrings(items[..i], "sources").Ok?
        invariant sources == AsStrings(items[..i], "sources").value
      {
        var c := AsString(items[i], "sources");
        if c.Err? {
          AsStringsSplit(items, "sources", i);
          return Some(c.error);
        }
        sources := sources + [c.value];
        assert items[..i + 1][..i] == items[..i];
        AsStringsSnoc(items[..i + 1], "sources");
        i := i + 1;
      }
      assert items[..i] == items;
      return None;
    }
  }
}
