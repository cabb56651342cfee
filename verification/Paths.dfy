/** The Windows path functions the updater calls through os.path (ntpath):
    basename, dirname and join, for paths without a drive or UNC prefix.
    The functions carry only their bounds; what they mean is stated by the
    lemmas after them. */
module Paths {

  /** ntpath accepts both slashes as separators. */
  predicate IsSep(c: char) {
    c == '\\' || c == '/'
  }

  predicate NoSep(s: string) {
    forall k :: 0 <= k < |s| ==> !IsSep(s[k])
  }

  predicate AllSeps(s: string) {
    forall k :: 0 <= k < |s| ==> IsSep(s[k])
  }

  /** The index just past the last separator of `p` (0 when there is none). */
  function TailStart(p: string): (i: nat)
    ensures i <= |p|
  {
    if p == [] then 0
    else if IsSep(p[|p| - 1]) then |p|
    else TailStart(p[..|p| - 1])
  }

  lemma {:induction false} TailStartSpec(p: string)
    ensures var i := TailStart(p);
      && (i == 0 || IsSep(p[i - 1]))
      && NoSep(p[i..])
  {
    if p != [] && !IsSep(p[|p| - 1]) {
      var q := p[..|p| - 1];
      TailStartSpec(q);
      assert p[TailStart(q)..] == q[TailStart(q)..] + [p[|p| - 1]];
    }
  }

  /** TailStart is determined by the two properties above. */
  lemma TailStartUnique(p: string, j: nat)
    requires j <= |p|
    requires j == 0 || IsSep(p[j - 1])
    requires NoSep(p[j..])
    ensures TailStart(p) == j
  {
    TailStartSpec(p);
  }

  /** `os.path.basename(p)`: the text after the last separator. */
  function Basename(p: string): (r: string)
    ensures |r| <= |p|
    ensures r == [] <==> p == [] || IsSep(p[|p| - 1])
  {
    p[TailStart(p)..]
  }

  /** The basename is a separator-free suffix of the path that starts the
      path or follows a separator. */
  lemma BasenameSpec(p: string)
    ensures var r := Basename(p);
      && NoSep(r)
      && p[|p| - |r|..] == r
      && (|r| == |p| || IsSep(p[|p| - |r| - 1]))
  {
    TailStartSpec(p);
  }

  /** `s.rstrip(seps)`. */
  function StripTrailingSeps(s: string): (r: string)
    ensures |r| <= |s|
  {
    if s == [] || !IsSep(s[|s| - 1]) then s else StripTrailingSeps(s[..|s| - 1])
  }

  lemma {:induction false} StripTrailingSepsSpec(s: string)
    ensures var r := StripTrailingSeps(s);
      && s[..|r|] == r
      && (r == [] || !IsSep(r[|r| - 1]))
      && AllSeps(s[|r|..])
  {
    if s != [] && IsSep(s[|s| - 1]) {
      var q := s[..|s| - 1];
      StripTrailingSepsSpec(q);
      var r := StripTrailingSeps(q);
      assert s[|r|..] == q[|r|..] + [s[|s| - 1]];
    }
  }

  /** `os.path.dirname(p)`: everything before the basename, less the
      separators that end it, unless it is made of separators only
      (`head.rstrip(seps) or head`). */
  function Dirname(p: string): (r: string)
    ensures |r| + |Basename(p)| <= |p|
    ensures r == [] <==> Basename(p) == p
  {
    var head := p[..TailStart(p)];
    var stripped := StripTrailingSeps(head);
    if stripped == [] then head else stripped
  }

  /** The shapes Dirname can return: empty, a root made of separators, or a
      path that does not end with a separator. */
  predicate IsDirectory(d: string) {
    d == [] || AllSeps(d) || !IsSep(d[|d| - 1])
  }

  /** The directory is a prefix of the path, only separators stand between
      it and the basename, and it has the shape of a directory. */
  lemma DirnameSpec(p: string)
    ensures var r := Dirname(p);
      && p[..|r|] == r
      && AllSeps(p[|r|..|p| - |Basename(p)|])
      && IsDirectory(r)
      && (AllSeps(r) ==> |r| + |Basename(p)| == |p|)
  {
    var head := p[..TailStart(p)];
    StripTrailingSepsSpec(head);
    var r := Dirname(p);
    assert p[|r|..|p| - |Basename(p)|] == head[|r|..];
  }

  /** A path that starts at a root: its first character is a separator. */
  predicate Rooted(p: string) {
    p != [] && IsSep(p[0])
  }

  /** `os.path.join(d, name)`: a rooted `name` replaces `d`; otherwise a
      backslash is put between the two unless `d` is empty or already ends
      with a separator. */
  function Join(d: string, name: string): (r: string)
    ensures Rooted(name) ==> r == name
    ensures !Rooted(name) ==> |d| + |name| <= |r| <= |d| + |name| + 1
    ensures !Rooted(name) ==> (|r| == |d| + |name| <==> d == [] || IsSep(d[|d| - 1]))
  {
    if Rooted(name) then name
    else if d == [] then name
    else if IsSep(d[|d| - 1]) then d + name
    else d + ['\\'] + name
  }

  /** Onto a relative name, the joined path starts with the directory, ends
      with the name, and whatever stands between them is a single backslash. */
  lemma JoinSpec(d: string, name: string)
    requires !Rooted(name)
    ensures var r := Join(d, name);
      && r[..|d|] == d
      && r[|r| - |name|..] == name
      && (|r| == |d| + |name| + 1 ==> r[|d|] == '\\')
  {
  }

  /** Joining a file name onto a directory puts the file in that directory:
      dirname and basename take the joined path apart again. */
  lemma JoinSplits(d: string, name: string)
    requires IsDirectory(d)
    requires NoSep(name)
    ensures Dirname(Join(d, name)) == d
    ensures Basename(Join(d, name)) == name
  {
    var p := Join(d, name);
    if d == [] {
      TailStartUnique(p, 0);
    } else if IsSep(d[|d| - 1]) {
      assert p[|d|..] == name;
      TailStartUnique(p, |d|);
      assert p[..|d|] == d;
      StripTrailingSepsSpec(d);
      assert StripTrailingSeps(d) == [];
    } else {
      assert p[|d| + 1..] == name;
      TailStartUnique(p, |d| + 1);
      assert p[..|d| + 1] == d + ['\\'];
      assert StripTrailingSeps(d + ['\\']) == StripTrailingSeps(d) == d;
    }
  }
}
