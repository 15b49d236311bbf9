/** Repository/RepositoryManager.cs, Repository/Provider/Github.cs and
    Repository/Provider/Bitbucket.cs: the hosting providers and the archive URL each
    builds. `System.Uri` is not modelled: the URL's absolute path is an input. */
module Repository {
  import opened Wrappers
  import opened Strings

  /** The implementations of RepositoryProviderInterface. */
  datatype Provider = Github | Bitbucket

  /** The registration order of RepositoryManager's constructor. */
  const Providers: seq<Provider> := [Github, Bitbucket]

  /** IdentifyURL: a prefix test on the repository URL. */
  function IdentifyURL(p: Provider, url: string): bool {
    match p
    case Github => StartsWith(url, "https://github.com/") || StartsWith(url, "https://raw.githubusercontent.com/")
    case Bitbucket => StartsWith(url, "https://bitbucket.org/")
  }

  /** The version a provider fetches for the wildcard "*" or an empty version. */
  function HeadVersion(p: Provider): string {
    match p
    case Github => "master"
    case Bitbucket => "HEAD"
  }

  /** GetZipFileUrl(url, version), given `absolutePath` = new Uri(url).AbsolutePath. */
  function GetZipFileUrl(p: Provider, url: string, absolutePath: string, version: string): (r: Result<string>)
    ensures r.Err? <==> |Split(absolutePath, '/')| < 3
    ensures r.Err? ==> r.error == WrongRepositoryUrl(url)
  {
    var path := Split(absolutePath, '/');
    if |path| < 3 then Err(WrongRepositoryUrl(url))
    else
      var user := path[1];
      var repo := path[2];
      var v := if version == "*" || |version| == 0 then HeadVersion(p) else version;
      match p
      case Github => Ok("https://github.com/" + user + "/" + repo + "/zipball/" + v)
      case Bitbucket => Ok("https://bitbucket.org/" + user + "/" + repo + "/get/" + v + ".zip")
  }

  /** Splitting a join of separator-free pieces gives the pieces back. */
  lemma {:induction false} SplitJoin(pieces: seq<string>, sep: char)
    requires |pieces| >= 1
    requires forall i :: 0 <= i < |pieces| ==> sep !in pieces[i]
    ensures Split(Join(pieces, sep), sep) == pieces
    decreases |pieces|, |pieces[0]|
  {
    var s := Join(pieces, sep);
    if |pieces[0]| == 0 {
      if |pieces| > 1 {
        assert s == [sep] + Join(pieces[1..], sep);
        assert s[1..] == Join(pieces[1..], sep);
        SplitJoin(pieces[1..], sep);
        assert [""] + pieces[1..] == pieces;
      }
    } else {
      var shorter := [pieces[0][1..]] + pieces[1..];
      assert shorter[1..] == pieces[1..];
      assert s == [pieces[0][0]] + Join(shorter, sep);
      assert s[1..] == Join(shorter, sep);
      SplitJoin(shorter, sep);
      assert [pieces[0][0]] + shorter[0] == pieces[0];
      assert [[pieces[0][0]] + shorter[0]] + shorter[1..] == pieces;
    }
  }

  /** Splitting at a separator-free first piece peels that piece off. */
  lemma {:induction false} SplitCons(a: string, rest: string, sep: char)
    requires sep !in a
    ensures Split(a + [sep] + rest, sep) == [a] + Split(rest, sep)
    decreases |a|
  {
    if a == [] {
      assert a + [sep] + rest == [sep] + rest;
      assert ([sep] + rest)[1..] == rest;
    } else {
      var s := a + [sep] + rest;
      assert s[0] == a[0] && s[1..] == a[1..] + [sep] + rest;
      SplitCons(a[1..], rest, sep);
      var tail := Split(s[1..], sep);
      assert tail[0] == a[1..] && tail[1..] == Split(rest, sep);
      assert Split(s, sep) == [[a[0]] + tail[0]] + tail[1..];
      assert [a[0]] + a[1..] == a;
    }
  }

  /** One '/'-separated piece in front of a text whose pieces are known. */
  lemma Peel(a: string, rest: string, pieces: seq<string>)
    requires '/' !in a && Split(rest, '/') == pieces
    ensures Split(a + "/" + rest, '/') == [a] + pieces
  {
    SplitCons(a, rest, '/');
  }

  /** A string without the separator splits into itself alone. */
  lemma SplitNoSep(s: string, sep: char)
    requires sep !in s
    ensures Split(s, sep) == [s]
  {
  }

  /** The segments of host + "/" + user + "/" + repo + "/" + kind + "/" + last. */
  lemma PathSegments(host: string, kind: string, user: string, repo: string, last: string)
    requires '/' !in host && '/' !in kind && '/' !in user && '/' !in repo && '/' !in last
    ensures Split(host + "/" + (user + "/" + (repo + "/" + (kind + "/" + last))), '/')
      == [host, user, repo, kind, last]
  {
    var t5 := kind + "/" + last;
    var t4 := repo + "/" + t5;
    var t3 := user + "/" + t4;
    SplitNoSep(last, '/');
    Peel(kind, last, [last]);
    Peel(repo, t5, [kind, last]);
    Peel(user, t4, [repo, kind, last]);
    Peel(host, t3, [user, repo, kind, last]);
  }

  /** The segments of scheme + "//" + host + "/" + user + "/" + repo + "/" + kind + "/" + last. */
  lemma Segments(scheme: string, host: string, kind: string, user: string, repo: string, last: string)
    requires '/' !in scheme && '/' !in host && '/' !in kind && '/' !in user && '/' !in repo && '/' !in last
    ensures Split(scheme + "/" + ("" + "/" + (host + "/" + (user + "/" + (repo + "/" + (kind + "/" + last))))), '/')
      == [scheme, "", host, user, repo, kind, last]
  {
    var t2 := host + "/" + (user + "/" + (repo + "/" + (kind + "/" + last)));
    var p1 := [host, user, repo, kind, last];
    PathSegments(host, kind, user, repo, last);
    Peel("", t2, p1);
    Peel(scheme, "" + "/" + t2, [""] + p1);
    assert [scheme] + ([""] + p1) == [scheme, "", host, user, repo, kind, last];
  }

  /** A generated archive URL splits back into its host, user, repository and
      version segments, with the provider's head version for "*" and "". */
  lemma ZipUrlSegments(p: Provider, url: string, absolutePath: string, version: string)
    requires |Split(absolutePath, '/')| >= 3
    requires '/' !in version
    ensures GetZipFileUrl(p, url, absolutePath, version).Ok?
    ensures var path := Split(absolutePath, '/');
      var v := if version == "*" || version == "" then HeadVersion(p) else version;
      Split(GetZipFileUrl(p, url, absolutePath, version).value, '/') ==
        match p
        case Github => ["https:", "", "github.com", path[1], path[2], "zipball", v]
        case Bitbucket => ["https:", "", "bitbucket.org", path[1], path[2], "get", v + ".zip"]
  {
    var path := Split(absolutePath, '/');
    var v := if version == "*" || version == "" then HeadVersion(p) else version;
    assert '/' !in v by {
      if version == "*" || version == "" {
        assert v == "master" || v == "HEAD";
      }
    }
    assert '/' !in path[1] && '/' !in path[2];
    match p
    case Github =>
      assert GetZipFileUrl(p, url, absolutePath, version).value
        == "https://github.com/" + path[1] + "/" + path[2] + "/zipball/" + v;
      GithubSegments(path[1], path[2], v);
    case Bitbucket =>
      assert GetZipFileUrl(p, url, absolutePath, version).value
        == "https://bitbucket.org/" + path[1] + "/" + path[2] + "/get/" + v + ".zip";
      BitbucketSegments(path[1], path[2], v);
  }

  lemma GithubSegments(user: string, repo: string, v: string)
    requires '/' !in user && '/' !in repo && '/' !in v
    ensures Split("https://github.com/" + user + "/" + repo + "/zipball/" + v, '/')
      == ["https:", "", "github.com", user, repo, "zipball", v]
  {
    GithubUrl(user, repo, v);
    Segments("https:", "github.com", "zipball", user, repo, v);
  }

  lemma BitbucketSegments(user: string, repo: string, v: string)
    requires '/' !in user && '/' !in repo && '/' !in v
    ensures Split("https://bitbucket.org/" + user + "/" + repo + "/get/" + v + ".zip", '/')
      == ["https:", "", "bitbucket.org", user, repo, "get", v + ".zip"]
  {
    assert '/' !in v + ".zip";
    BitbucketUrl(user, repo, v);
    Segments("https:", "bitbucket.org", "get", user, repo, v + ".zip");
  }

  lemma GithubUrl(user: string, repo: string, v: string)
    ensures "https://github.com/" + user + "/" + repo + "/zipball/" + v
      == "https:" + "/" + ("" + "/" + ("github.com" + "/" + (user + "/" + (repo + "/" + ("zipball" + "/" + v)))))
  {
    assert "https://github.com/" == "https:" + "/" + ("" + "/" + ("github.com" + "/"));
    assert "/zipball/" == "/" + ("zipball" + "/");
  }

  lemma BitbucketUrl(user: string, repo: string, v: string)
    ensures "https://bitbucket.org/" + user + "/" + repo + "/get/" + v + ".zip"
      == "https:" + "/" + ("" + "/" + ("bitbucket.org" + "/" + (user + "/" + (repo + "/" + ("get" + "/" + (v + ".zip"))))))
  {
    assert "https://bitbucket.org/" == "https:" + "/" + ("" + "/" + ("bitbucket.org" + "/"));
    assert "/get/" == "/" + ("get" + "/");
  }

  /** The index in `ps` of the first provider that identifies `url`. */
  function FirstMatch(ps: seq<Provider>, url: string): (r: Option<nat>)
    ensures r.Some? ==> r.value < |ps| && IdentifyURL(ps[r.value], url)
    ensures r.Some? ==> forall j :: 0 <= j < r.value ==> !IdentifyURL(ps[j], url)
    ensures r.None? <==> forall j :: 0 <= j < |ps| ==> !IdentifyURL(ps[j], url)
  {
    if ps == [] then None
    else if IdentifyURL(ps[0], url) then Some(0)
    else match FirstMatch(ps[1..], url)
      case None => None
      case Some(i) => Some(i + 1)
  }

  /** getProvider: the first registered provider that identifies the URL, or null. */
  function GetProvider(url: string): (r: Option<Provider>)
    ensures r.Some? ==> IdentifyURL(r.value, url)
    ensures r == Some(Bitbucket) ==> !IdentifyURL(Github, url)
    ensures r.None? <==> !IdentifyURL(Github, url) && !IdentifyURL(Bitbucket, url)
  {
    var m := FirstMatch(Providers, url);
    assert Providers[0] == Github && Providers[1] == Bitbucket && |Providers| == 2;
    match m
    case None => None
    case Some(i) => Some(Providers[i])
  }

  /** No URL is claimed by both providers, so the registration order never decides:
      each provider is returned exactly for the URLs it identifies. */
  lemma ProvidersDisjoint(url: string)
    ensures !(IdentifyURL(Github, url) && IdentifyURL(Bitbucket, url))
    ensures GetProvider(url) == Some(Github) <==> IdentifyURL(Github, url)
    ensures GetProvider(url) == Some(Bitbucket) <==> IdentifyURL(Bitbucket, url)
  {
    if IdentifyURL(Bitbucket, url) {
      var b := "https://bitbucket.org/";
      assert url[8] == b[8] == 'b' by { assert url[..|b|] == b; }
      DiffersAt(url, "https://github.com/", 8);
      DiffersAt(url, "https://raw.githubusercontent.com/", 8);
    }
  }

  /** GitHub URLs, page and raw file alike, go to Github. */
  lemma GithubExamples()
    ensures GetProvider("https://github.com/a/b") == Some(Github)
    ensures GetProvider("https://raw.githubusercontent.com/a/b/master/f.lua") == Some(Github)
  {
    assert "https://github.com/a/b" == "https://github.com/" + "a/b";
    assert "https://raw.githubusercontent.com/a/b/master/f.lua" == "https://raw.githubusercontent.com/" + "a/b/master/f.lua";
  }

  /** A Bitbucket URL is not taken by Github, which is asked first. */
  lemma BitbucketExample()
    ensures GetProvider("https://bitbucket.org/a/b") == Some(Bitbucket)
  {
    assert "https://bitbucket.org/a/b" == "https://bitbucket.org/" + "a/b";
    DiffersAt("https://bitbucket.org/a/b", "https://github.com/", 8);
    DiffersAt("https://bitbucket.org/a/b", "https://raw.githubusercontent.com/", 8);
  }

  /** Another host, or plain http, has no provider. */
  lemma UnknownHostExamples()
    ensures GetProvider("https://gitlab.com/a/b") == None
    ensures GetProvider("http://github.com/a/b") == None
  {
    DiffersAt("https://gitlab.com/a/b", "https://github.com/", 11);
    DiffersAt("https://gitlab.com/a/b", "https://raw.githubusercontent.com/", 8);
    DiffersAt("https://gitlab.com/a/b", "https://bitbucket.org/", 8);
    DiffersAt("http://github.com/a/b", "https://github.com/", 4);
    DiffersAt("http://github.com/a/b", "https://raw.githubusercontent.com/", 4);
    DiffersAt("http://github.com/a/b", "https://bitbucket.org/", 4);
  }
}
