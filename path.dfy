/** The URL-to-local-file resolver of internal/parsers/path.go: a PathProcessor
    owns two maps, canonical URL to file name and back, that only ever grow. */
module Paths {
  import opened Strings
  import opened FilePaths
  import opened Urls
  import opened Wrappers

  /** The result of resolving one link. */
  datatype ProcessedPath = ProcessedPath(success: bool, url: Url, localPath: string, relativeUrl: string)

  /** The zero value returned for a link that cannot be parsed. */
  const Failed := ProcessedPath(false, EmptyUrl, "", "")

  /** The contents of a PathProcessor's two maps. */
  datatype Store = Store(urlToFile: map<string, string>, fileToUrl: map<string, string>)

  const EmptyStore := Store(map[], map[])

  /** The two maps are mutual inverses, and no URL maps to the empty name
      (the lookup treats "" as "absent"). */
  predicate Consistent(s: Store)
  {
    && (forall u {:trigger u in s.urlToFile} :: u in s.urlToFile ==> s.urlToFile[u] in s.fileToUrl && s.fileToUrl[s.urlToFile[u]] == u)
    && (forall f {:trigger f in s.fileToUrl} :: f in s.fileToUrl ==> s.fileToUrl[f] in s.urlToFile && s.urlToFile[s.fileToUrl[f]] == f)
    && (forall u {:trigger u in s.urlToFile} :: u in s.urlToFile ==> s.urlToFile[u] != "")
  }

  /** Every entry of `s` is still in `t`, with the same value. */
  predicate Grows(s: Store, t: Store)
  {
    && (forall u :: u in s.urlToFile ==> u in t.urlToFile && t.urlToFile[u] == s.urlToFile[u])
    && (forall f :: f in s.fileToUrl ==> f in t.fileToUrl && t.fileToUrl[f] == s.fileToUrl[f])
  }

  lemma GrowsTransitive(s: Store, t: Store, u: Store)
    requires Grows(s, t) && Grows(t, u)
    ensures Grows(s, u)
  {
  }

  /** The file name derived from a resolved path: drop the root's path prefix,
      collapse a trailing "/index.html" and "/", keep the last element, default
      to "index.html", and make sure there is an extension. */
  function DerivedName(path: string, rootPath: string): (name: string)
    ensures Ext(name) != ""
  {
    WithExtension(DefaultIndex(LastElement(DropSlash(DropIndex(DropRoot(path, rootPath))))))
  }

  function DropRoot(path: string, rootPath: string): string
  {
    if HasPrefix(path, rootPath) then path[|rootPath|..] else path
  }

  function DropIndex(a: string): string
  {
    if HasSuffix(a, "/index.html") then a[..|a| - |"index.html"|] else a
  }

  function DropSlash(b: string): string
  {
    if HasSuffix(b, "/") then b[..|b| - 1] else b
  }

  function LastElement(c: string): string
  {
    if Dir(c) != "." then c[|Dir(c)|..] else c
  }

  function DefaultIndex(d: string): string
  {
    if d == "/" || d == "" then "index.html" else d
  }

  function WithExtension(e: string): (name: string)
    ensures Ext(name) != ""
  {
    if Ext(e) == "" then
      HtmlExtension(e);
      e + ".html"
    else
      e
  }

  /** The site root itself, with or without "/index.html", is stored as "index.html". */
  lemma RootIsIndex(rootPath: string)
    ensures DerivedName(rootPath, rootPath) == "index.html"
  {
    assert DropRoot(rootPath, rootPath) == "";
    assert DropIndex("") == "" && DropSlash("") == "";
    assert LastElement("") == "" by { assert Dir("") == "."; }
    HtmlExtension("index");
    assert "index.html" == "index" + ".html";
  }

  /** The name tried on the k-th attempt: the derived name first, then
      `stem_k.ext`, all under the category prefix. */
  function Candidate(prefix: string, rel: string, k: nat): string
  {
    if k == 0 then Join(prefix, rel)
    else Join(prefix, Stem(rel) + "_" + Itoa(k) + Ext(rel))
  }

  lemma StrippedRetryName(rel: string, k: nat)
    ensures StripLeadingSlashes(Stem(rel) + "_" + Itoa(k) + Ext(rel))
         == StripLeadingSlashes(Stem(rel)) + "_" + Itoa(k) + Ext(rel)
  {
    StripUnderscored(Stem(rel), Itoa(k), Ext(rel));
  }

  lemma StripUnderscored(a: string, d: string, e: string)
    ensures StripLeadingSlashes(a + "_" + d + e) == StripLeadingSlashes(a) + "_" + d + e
  {
    var tail := "_" + d + e;
    assert a + "_" + d + e == a + tail;
    StripAppend(a, tail);
    assert StripLeadingSlashes(a) + tail == StripLeadingSlashes(a) + "_" + d + e;
  }

  /** What every retry name starts with. */
  function RetryHead(prefix: string, rel: string): string
  {
    var s := StripLeadingSlashes(Stem(rel));
    if prefix == "." || prefix == "" then s + "_" else prefix + "/" + s + "_"
  }

  /** The stripped retry name is the stripped stem, '_', the counter and the
      extension; it is never empty nor ".". */
  lemma StrippedRetryShape(rel: string, k: nat)
    ensures var n := StripLeadingSlashes(Stem(rel) + "_" + Itoa(k) + Ext(rel));
            && n == StripLeadingSlashes(Stem(rel)) + "_" + Itoa(k) + Ext(rel)
            && n != "" && n != "."
  {
    StrippedRetryName(rel, k);
    var s := StripLeadingSlashes(Stem(rel));
    var n := StripLeadingSlashes(Stem(rel) + "_" + Itoa(k) + Ext(rel));
    assert n[|s|] == '_';
  }

  lemma RetryShape(prefix: string, rel: string, k: nat)
    requires 1 <= k
    ensures Candidate(prefix, rel, k) == RetryHead(prefix, rel) + Itoa(k) + Ext(rel)
  {
    StrippedRetryShape(rel, k);
    var name := Stem(rel) + "_" + Itoa(k) + Ext(rel);
    JoinPlain(prefix, name);
    HeadThenCounter(prefix, StripLeadingSlashes(Stem(rel)), Itoa(k), Ext(rel));
  }

  /** Regrouping a joined retry name around its counter. */
  lemma HeadThenCounter(prefix: string, s: string, d: string, e: string)
    ensures prefix + "/" + (s + "_" + d + e) == (prefix + "/" + s + "_") + d + e
    ensures s + "_" + d + e == (s + "_") + d + e
  {
  }

  /** Retries with distinct counters produce distinct names. */
  lemma CandidateInjective(prefix: string, rel: string, j: nat, k: nat)
    requires 1 <= j && 1 <= k && j != k
    ensures Candidate(prefix, rel, j) != Candidate(prefix, rel, k)
  {
    RetryShape(prefix, rel, j);
    RetryShape(prefix, rel, k);
    ItoaInjective(j, k);
    if Candidate(prefix, rel, j) == Candidate(prefix, rel, k) {
      CancelAround(RetryHead(prefix, rel), Itoa(j), Itoa(k), Ext(rel));
    }
  }

  /** No candidate name is empty. */
  lemma CandidateNonEmpty(prefix: string, rel: string, k: nat)
    requires Ext(rel) != ""
    ensures Candidate(prefix, rel, k) != ""
  {
    if k == 0 {
      StripAppend(Stem(rel), Ext(rel));
    } else {
      StrippedRetryName(rel, k);
    }
  }

  /** If the first n retries are all taken, there are at least n taken names:
      this bounds the collision loop. */
  lemma {:induction false} CandidatesBound(taken: set<string>, prefix: string, rel: string, n: nat)
    requires forall j :: 1 <= j <= n ==> Candidate(prefix, rel, j) in taken
    ensures n <= |taken|
    decreases n
  {
    if n > 0 {
      var rest := taken - {Candidate(prefix, rel, n)};
      forall j | 1 <= j <= n - 1
        ensures Candidate(prefix, rel, j) in rest
      {
        CandidateInjective(prefix, rel, j, n);
      }
      CandidatesBound(rest, prefix, rel, n - 1);
    }
  }

  /** The first retry counter, from n on, whose name is free. */
  function FreeIndex(taken: set<string>, prefix: string, rel: string, n: nat): (k: nat)
    requires 1 <= n
    requires forall j :: 1 <= j < n ==> Candidate(prefix, rel, j) in taken
    ensures n <= k && Candidate(prefix, rel, k) !in taken
    ensures forall j :: 1 <= j < k ==> Candidate(prefix, rel, j) in taken
    decreases |taken| + 1 - n
  {
    if Candidate(prefix, rel, n) !in taken then n
    else
      CandidatesBound(taken, prefix, rel, n);
      FreeIndex(taken, prefix, rel, n + 1)
  }

  /** The name the resolver assigns to a new URL: the first candidate not yet taken. */
  function FirstFree(taken: set<string>, prefix: string, rel: string): (name: string)
  {
    if Candidate(prefix, rel, 0) !in taken then Candidate(prefix, rel, 0)
    else Candidate(prefix, rel, FreeIndex(taken, prefix, rel, 1))
  }

  /** FirstFree picks a free name, and every candidate before it was taken. */
  lemma FirstFreeIsFirst(taken: set<string>, prefix: string, rel: string)
    ensures FirstFree(taken, prefix, rel) !in taken
    ensures exists k: nat ::
              && FirstFree(taken, prefix, rel) == Candidate(prefix, rel, k)
              && forall j :: 0 <= j < k ==> Candidate(prefix, rel, j) in taken
  {
    if Candidate(prefix, rel, 0) !in taken {
      assert FirstFree(taken, prefix, rel) == Candidate(prefix, rel, 0);
    } else {
      var k := FreeIndex(taken, prefix, rel, 1);
      assert forall j :: 0 <= j < k ==> Candidate(prefix, rel, j) in taken;
    }
  }

  /** The reference written into a rewritten document: the file name, plus
      "#fragment" when the link had a fragment. */
  function Reference(fileName: string, fragment: string): string
  {
    if fragment == "" then fileName else fileName + "#" + fragment
  }

  /** The canonical identity key of a resolved link. */
  function Key(resolved: Url): string
  {
    ToString(Canonical(resolved))
  }

  /** HandlePath as a function of the maps: the result and the new maps. */
  function Handle(s: Store, root: Url, link: string, onSite: Url, prefix: string): (ProcessedPath, Store)
  {
    match Parse(link)
    case None => (Failed, s)
    case Some(ref) =>
      var resolved := Resolve(onSite, ref);
      var key := Key(resolved);
      if key in s.urlToFile && s.urlToFile[key] != "" then
        var existing := s.urlToFile[key];
        (ProcessedPath(true, resolved, existing, Reference(existing, resolved.fragment)), s)
      else
        var name := FirstFree(s.fileToUrl.Keys, prefix, DerivedName(resolved.path, root.path));
        (ProcessedPath(true, resolved, name, Reference(name, resolved.fragment)),
         Store(s.urlToFile[key := name], s.fileToUrl[name := key]))
  }

  /** An unparsable link fails and leaves both maps unchanged. */
  lemma UnparsableLeavesMaps(s: Store, root: Url, link: string, onSite: Url, prefix: string)
    requires Parse(link).None?
    ensures Handle(s, root, link, onSite, prefix) == (Failed, s)
    ensures !Handle(s, root, link, onSite, prefix).0.success
  {
  }

  /** A parsable link always succeeds. */
  lemma ParsableSucceeds(s: Store, root: Url, link: string, onSite: Url, prefix: string)
    requires Parse(link).Some?
    ensures Handle(s, root, link, onSite, prefix).0.success
    ensures Handle(s, root, link, onSite, prefix).0.url == Resolve(onSite, Parse(link).value)
  {
  }

  /** A URL already seen gets its stored name back and nothing changes. */
  lemma SeenUrlHits(s: Store, root: Url, link: string, onSite: Url, prefix: string)
    requires Consistent(s)
    requires Parse(link).Some?
    requires Key(Resolve(onSite, Parse(link).value)) in s.urlToFile
    ensures Handle(s, root, link, onSite, prefix).1 == s
    ensures Handle(s, root, link, onSite, prefix).0.localPath
         == s.urlToFile[Key(Resolve(onSite, Parse(link).value))]
  {
  }

  /** A new URL gets a name that no URL had, and both directions are recorded. */
  lemma {:induction false} NewUrlGetsFreshName(s: Store, root: Url, link: string, onSite: Url, prefix: string)
    requires Consistent(s)
    requires Parse(link).Some?
    requires Key(Resolve(onSite, Parse(link).value)) !in s.urlToFile
    ensures var (p, t) := Handle(s, root, link, onSite, prefix);
            var key := Key(Resolve(onSite, Parse(link).value));
            && p.localPath !in s.fileToUrl
            && p.localPath != ""
            && t == Store(s.urlToFile[key := p.localPath], s.fileToUrl[p.localPath := key])
  {
    var resolved := Resolve(onSite, Parse(link).value);
    var rel := DerivedName(resolved.path, root.path);
    FirstFreeIsFirst(s.fileToUrl.Keys, prefix, rel);
    var k: nat :| FirstFree(s.fileToUrl.Keys, prefix, rel) == Candidate(prefix, rel, k);
    CandidateNonEmpty(prefix, rel, k);
  }

  /** Every reference has the same shape, on a hit and on a fresh name. */
  lemma ReferenceShape(s: Store, root: Url, link: string, onSite: Url, prefix: string)
    ensures var p := Handle(s, root, link, onSite, prefix).0;
            p.success ==> p.relativeUrl == Reference(p.localPath, p.url.fragment)
  {
  }

  /** Recording a new URL under a free, non-empty name keeps the maps mutual
      inverses and alters no entry. */
  lemma InsertKeepsConsistent(s: Store, key: string, name: string)
    requires Consistent(s)
    requires key !in s.urlToFile && name !in s.fileToUrl && name != ""
    ensures var t := Store(s.urlToFile[key := name], s.fileToUrl[name := key]);
            Consistent(t) && Grows(s, t)
  {
  }

  /** Resolution keeps the maps mutual inverses. */
  lemma {:induction false} HandleKeepsConsistent(s: Store, root: Url, link: string, onSite: Url, prefix: string)
    requires Consistent(s)
    ensures Consistent(Handle(s, root, link, onSite, prefix).1)
  {
    if Parse(link).Some? {
      var key := Key(Resolve(onSite, Parse(link).value));
      if key !in s.urlToFile {
        NewUrlGetsFreshName(s, root, link, onSite, prefix);
        InsertKeepsConsistent(s, key, Handle(s, root, link, onSite, prefix).0.localPath);
      }
    }
  }

  /** Resolution never alters or removes an entry. */
  lemma {:induction false} HandleGrows(s: Store, root: Url, link: string, onSite: Url, prefix: string)
    requires Consistent(s)
    ensures Grows(s, Handle(s, root, link, onSite, prefix).1)
  {
    if Parse(link).Some? {
      var key := Key(Resolve(onSite, Parse(link).value));
      if key !in s.urlToFile {
        NewUrlGetsFreshName(s, root, link, onSite, prefix);
        InsertKeepsConsistent(s, key, Handle(s, root, link, onSite, prefix).0.localPath);
      }
    }
  }

  /** Distinct canonical URLs are stored in distinct files. */
  lemma DistinctUrlsDistinctFiles(s: Store, u: string, v: string)
    requires Consistent(s)
    requires u in s.urlToFile && v in s.urlToFile && u != v
    ensures s.urlToFile[u] != s.urlToFile[v]
  {
  }

  /** Resolving the same resource again, with any fragment and any category,
      gives the same file and changes nothing. */
  lemma {:induction false} SameResourceSameFile(s: Store, root: Url,
                                               link1: string, onSite1: Url, prefix1: string,
                                               link2: string, onSite2: Url, prefix2: string)
    requires Consistent(s)
    requires Parse(link1).Some? && Parse(link2).Some?
    requires Key(Resolve(onSite1, Parse(link1).value)) == Key(Resolve(onSite2, Parse(link2).value))
    ensures var (p1, s1) := Handle(s, root, link1, onSite1, prefix1);
            var (p2, s2) := Handle(s1, root, link2, onSite2, prefix2);
            p2.localPath == p1.localPath && s2 == s1
  {
    var key := Key(Resolve(onSite1, Parse(link1).value));
    var (p1, s1) := Handle(s, root, link1, onSite1, prefix1);
    if key !in s.urlToFile {
      NewUrlGetsFreshName(s, root, link1, onSite1, prefix1);
    }
    assert key in s1.urlToFile && s1.urlToFile[key] == p1.localPath;
    HandleKeepsConsistent(s, root, link1, onSite1, prefix1);
    SeenUrlHits(s1, root, link2, onSite2, prefix2);
  }

  /** The collision loop of HandlePath: add "_N" before the extension, N = 1, 2, ...,
      until the name is not a key of `fileToUrl`. */
  method Disambiguate(fileToUrl: map<string, string>, localPrefix: string, relativeFileName: string)
    returns (fileName: string)
    ensures fileName == FirstFree(fileToUrl.Keys, localPrefix, relativeFileName)
    ensures fileName !in fileToUrl
  {
    fileName := Join(localPrefix, relativeFileName);
    var counter := 0;
    while fileName in fileToUrl
      invariant fileName == Candidate(localPrefix, relativeFileName, counter)
      invariant counter > 0 ==> Candidate(localPrefix, relativeFileName, 0) in fileToUrl
      invariant forall j :: 1 <= j < counter ==> Candidate(localPrefix, relativeFileName, j) in fileToUrl
      decreases |fileToUrl.Keys| + 1 - counter
    {
      if counter > 0 {
        CandidatesBound(fileToUrl.Keys, localPrefix, relativeFileName, counter);
      }
      counter := counter + 1;
      var extension := Ext(relativeFileName);
      fileName := Join(localPrefix,
        relativeFileName[..|relativeFileName| - |extension|] + "_" + Itoa(counter) + extension);
    }
    if counter > 0 {
      var k := FreeIndex(fileToUrl.Keys, localPrefix, relativeFileName, 1);
      assert k == counter;
    }
  }

  /** The object: the root location and the two maps, under one lock. */
  class PathProcessor {
    const location: Url
    var urlToFile: map<string, string>
    var fileToUrl: map<string, string>

    function Maps(): Store
      reads this
    {
      Store(urlToFile, fileToUrl)
    }

    ghost predicate Valid()
      reads this
    {
      Consistent(Maps())
    }

    /** NewPathProcessor */
    constructor (location: Url)
      ensures this.location == location
      ensures Maps() == EmptyStore && Valid()
    {
      this.location := location;
      urlToFile := map[];
      fileToUrl := map[];
    }

    /** HandlePath: resolve `link` against `onSite`, reuse the stored name of a
        URL already seen, or derive a new name, disambiguate it, and record it. */
    method HandlePath(link: string, onSite: Url, localPrefix: string) returns (p: ProcessedPath)
      requires Valid()
      modifies this
      ensures Valid()
      ensures (p, Maps()) == Handle(old(Maps()), location, link, onSite, localPrefix)
      ensures Grows(old(Maps()), Maps())
    {
      HandleKeepsConsistent(Maps(), location, link, onSite, localPrefix);
      HandleGrows(Maps(), location, link, onSite, localPrefix);
      var parsed := Parse(link);
      if parsed.None? {
        return Failed;
      }
      var resolved := Resolve(onSite, parsed.value);
      var key := ToString(Canonical(resolved));
      if key in urlToFile && urlToFile[key] != "" {
        var existingPath := urlToFile[key];
        return ProcessedPath(true, resolved, existingPath, Reference(existingPath, resolved.fragment));
      }

      var relativeFileName := DerivedName(resolved.path, location.path);
      var fileName := Disambiguate(fileToUrl, localPrefix, relativeFileName);

      fileToUrl := fileToUrl[fileName := key];
      urlToFile := urlToFile[key := fileName];
      p := ProcessedPath(true, resolved, fileName, Reference(fileName, resolved.fragment));
    }
  }
}
