/** The parts of Go's `path/filepath` package used to build local file names,
    for '/'-separated paths. `Clean` is modelled only as far as the names built
    here need: leading separators of a joined element and an empty or "." element. */
module FilePaths {

  /** An extension as `filepath.Ext` returns it: a dot followed by characters
      that are neither dots nor separators. */
  predicate IsExtension(e: string)
  {
    |e| >= 1 && e[0] == '.' && forall i :: 1 <= i < |e| ==> e[i] != '.' && e[i] != '/'
  }

  /** filepath.Ext: the suffix from the last dot of the last path element. */
  function Ext(p: string): (e: string)
    ensures |e| <= |p| && e == p[|p| - |e|..]
    ensures e == "" || IsExtension(e)
    decreases |p|
  {
    if p == [] || p[|p| - 1] == '/' then ""
    else if p[|p| - 1] == '.' then "."
    else
      var e := Ext(p[..|p| - 1]);
      if e == "" then "" else e + [p[|p| - 1]]
  }

  /** Appending an extension to any path makes it the path's extension. */
  lemma {:induction false} ExtOfExtended(s: string, e: string)
    requires IsExtension(e)
    ensures Ext(s + e) == e
    decreases |e|
  {
    var p := s + e;
    var last := e[|e| - 1];
    assert p[|p| - 1] == last;
    if |e| == 1 {
      ExtDot(p);
    } else {
      var e' := e[..|e| - 1];
      assert p[..|p| - 1] == s + e';
      ExtOfExtended(s, e');
      ExtStep(p);
      assert e' + [last] == e;
    }
  }

  /** A path ending in a dot has the extension ".". */
  lemma ExtDot(p: string)
    requires p != [] && p[|p| - 1] == '.'
    ensures Ext(p) == "."
  {
  }

  /** A path ending in an ordinary character extends the extension of the
      path without it, if that one has any. */
  lemma ExtStep(p: string)
    requires p != [] && p[|p| - 1] != '.' && p[|p| - 1] != '/'
    requires Ext(p[..|p| - 1]) != ""
    ensures Ext(p) == Ext(p[..|p| - 1]) + [p[|p| - 1]]
  {
  }

  /** Appending ".html" gives a path whose extension is ".html". */
  lemma HtmlExtension(s: string)
    ensures Ext(s + ".html") == ".html"
  {
    var h := ".html";
    assert h[0] == '.' && h[1] == 'h' && h[2] == 't' && h[3] == 'm' && h[4] == 'l';
    assert IsExtension(h);
    ExtOfExtended(s, h);
  }

  /** The part of `p` before its extension. */
  function Stem(p: string): (s: string)
    ensures s + Ext(p) == p
  {
    p[..|p| - |Ext(p)|]
  }

  function StripLeadingSlashes(s: string): (r: string)
    ensures |r| <= |s|
    ensures r == "" || r[0] != '/'
    decreases |s|
  {
    if s != [] && s[0] == '/' then StripLeadingSlashes(s[1..]) else s
  }

  /** Stripping stops at the first character that is not a separator. */
  lemma {:induction false} StripAppend(a: string, b: string)
    requires b != [] && b[0] != '/'
    ensures StripLeadingSlashes(a + b) == StripLeadingSlashes(a) + b
    decreases |a|
  {
    if a != [] {
      assert (a + b)[1..] == a[1..] + b;
      if a[0] == '/' {
        StripAppend(a[1..], b);
      }
    }
  }

  function TrimTrailingSlashes(s: string): (r: string)
    ensures |r| <= |s|
    ensures r == "" || r[|r| - 1] != '/'
    decreases |s|
  {
    if s != [] && s[|s| - 1] == '/' then TrimTrailingSlashes(s[..|s| - 1]) else s
  }

  /** Index of the last separator, or -1 when there is none. */
  function LastSlash(s: string): (i: int)
    ensures -1 <= i < |s|
    ensures i >= 0 ==> s[i] == '/'
    ensures forall j :: i < j < |s| ==> s[j] != '/'
    decreases |s|
  {
    if s == [] then -1
    else if s[|s| - 1] == '/' then |s| - 1
    else LastSlash(s[..|s| - 1])
  }

  /** filepath.Dir: everything before the last element, without trailing
      separators; "." when there is no separator, "/" for the root. */
  function Dir(p: string): (d: string)
    ensures d == "." || |d| <= |p|
  {
    var i := LastSlash(p);
    if i < 0 then "."
    else
      var d := TrimTrailingSlashes(p[..i + 1]);
      if d == "" then "/" else d
  }

  /** filepath.Base: the last element, trailing separators ignored. */
  function Base(p: string): (b: string)
    ensures b != ""
  {
    if p == "" then "."
    else
      var t := TrimTrailingSlashes(p);
      if t == "" then "/" else t[LastSlash(t) + 1..]
  }

  /** The base of a child path is the child's own name. */
  lemma BaseOfChild(d: string, n: string)
    requires n != [] && forall j :: 0 <= j < |n| ==> n[j] != '/'
    ensures Base(d + "/" + n) == n
  {
    var p := d + "/" + n;
    assert p[|p| - 1] == n[|n| - 1];
    assert TrimTrailingSlashes(p) == p;
    var i := LastSlash(p);
    assert p[|d|] == '/';
    assert forall j :: |d| < j < |p| ==> p[j] == n[j - |d| - 1];
    assert i == |d|;
    assert p[i + 1..] == n;
  }

  /** filepath.Join of a category prefix and a name. */
  function Join(prefix: string, name: string): (r: string)
  {
    var n := StripLeadingSlashes(name);
    if n == "" || n == "." then (if prefix == "" then n else prefix)
    else if prefix == "." || prefix == "" then n
    else prefix + "/" + n
  }

  lemma Regroup(a: string, b: string, c: string)
    ensures a + (b + c) == (a + b) + c
  {
  }

  /** Joining a name that does not collapse: the prefix, a separator and the
      name without its leading separators (just the name under "" or "."). */
  lemma JoinPlain(prefix: string, name: string)
    requires StripLeadingSlashes(name) != "" && StripLeadingSlashes(name) != "."
    ensures prefix == "." || prefix == "" ==> Join(prefix, name) == StripLeadingSlashes(name)
    ensures prefix != "." && prefix != "" ==> Join(prefix, name) == prefix + "/" + StripLeadingSlashes(name)
  {
  }

  /** Joining keeps the extension of a name, unless Clean collapses the name. */
  lemma JoinKeepsExt(prefix: string, name: string)
    requires StripLeadingSlashes(name) != "" && StripLeadingSlashes(name) != "."
    requires Ext(name) != ""
    ensures Ext(Join(prefix, name)) == Ext(name)
  {
    var e := Ext(name);
    var stem := Stem(name);
    StripAppend(stem, e);
    var s := StripLeadingSlashes(stem);
    JoinPlain(prefix, name);
    if prefix == "." || prefix == "" {
      ExtOfExtended(s, e);
    } else {
      Regroup(prefix + "/", s, e);
      ExtOfExtended(prefix + "/" + s, e);
    }
  }
}
