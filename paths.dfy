/** System.IO.Path as the tool uses it, with '/' as the only directory separator. */
module Paths {
  import opened Wrappers
  import opened Strings

  const Separator: char := '/'

  predicate IsRooted(p: string) {
    |p| > 0 && p[0] == Separator
  }

  /** Path.Combine(a, b). */
  function Combine(a: string, b: string): (r: string)
    ensures b == "" ==> r == a
    ensures b != "" && (a == "" || IsRooted(b)) ==> r == b
    ensures b != "" && a != "" && !IsRooted(b) ==> StartsWith(r, a) && EndsWith(r, b)
  {
    if b == "" then a
    else if a == "" || IsRooted(b) then b
    else if a[|a| - 1] == Separator then a + b
    else a + [Separator] + b
  }

  /** The index of the last `c` in `s`. */
  function LastIndexOf(s: string, c: char): (r: Option<nat>)
    ensures r.Some? ==> r.value < |s| && s[r.value] == c
    ensures r.Some? ==> forall i :: r.value < i < |s| ==> s[i] != c
    ensures r.None? <==> c !in s
  {
    if s == [] then None
    else if s[|s| - 1] == c then Some(|s| - 1)
    else
      var r := LastIndexOf(s[..|s| - 1], c);
      assert s == s[..|s| - 1] + [s[|s| - 1]];
      r
  }

  /** Path.GetFileName: what follows the last separator. */
  function FileName(p: string): (r: string)
    ensures Separator !in r
    ensures EndsWith(p, r)
  {
    match LastIndexOf(p, Separator)
    case None => p
    case Some(i) => p[i + 1..]
  }

  /** Path.GetFileNameWithoutExtension: the file name up to its last '.'. */
  function FileNameWithoutExtension(p: string): (r: string)
    ensures StartsWith(FileName(p), r)
  {
    var name := FileName(p);
    match LastIndexOf(name, '.')
    case None => name
    case Some(i) => name[..i]
  }

  /** The file name of a path whose last component follows a separator is that component. */
  lemma FileNameAfterSeparator(dir: string, name: string)
    requires |dir| > 0 && dir[|dir| - 1] == Separator && Separator !in name
    ensures FileName(dir + name) == name
  {
    var p := dir + name;
    var k := LastIndexOf(p, Separator);
    assert p[|dir| - 1] == Separator;
    assert k.Some?;
    assert forall i :: |dir| <= i < |p| ==> p[i] == name[i - |dir|];
    assert k.value == |dir| - 1;
    assert p[|dir|..] == name;
  }
}
