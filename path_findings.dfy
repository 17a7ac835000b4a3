/** Two places where internal/parsers/path.go as written departs from what it
    evidently intends. The model (module Paths) uses the corrected behaviour;
    this module states the code as written and exhibits the difference. */
module PathFindings {
  import opened Wrappers
  import opened Strings
  import opened FilePaths
  import opened Paths

  /** As written, a hit appends the fragment without its '#'. */
  function HitReferenceAsWritten(existingPath: string, fragment: string): string
  {
    existingPath + fragment
  }

  /** On a hit with a fragment, the as-written reference differs from the
      reference the same URL got when its name was first assigned. */
  lemma HitReferenceLosesHash(existingPath: string, fragment: string)
    requires fragment != ""
    ensures HitReferenceAsWritten(existingPath, fragment) != Reference(existingPath, fragment)
  {
    assert |HitReferenceAsWritten(existingPath, fragment)| + 1 == |Reference(existingPath, fragment)|;
  }

  /** The resolver with path.go's hit branch as written: a URL already
      recorded gets its name followed directly by the fragment; everything
      else, the maps included, is as in Handle. */
  function HandleAsWritten(s: Store, root: Urls.Url, link: string, onSite: Urls.Url, prefix: string)
    : (ProcessedPath, Store)
  {
    var (p, t) := Handle(s, root, link, onSite, prefix);
    match Urls.Parse(link)
    case None => (p, t)
    case Some(ref) =>
      var key := Key(Urls.Resolve(onSite, ref));
      if key in s.urlToFile && s.urlToFile[key] != "" then
        (p.(relativeUrl := HitReferenceAsWritten(p.localPath, p.url.fragment)), t)
      else (p, t)
  }

  /** As written, the second link to a new resource with a fragment is
      rewritten differently from the first: the first visit writes
      name + "#" + fragment, the second name + fragment. */
  lemma {:induction false} RepeatedFragmentLinkDiffers(s: Store, root: Urls.Url, link: string, onSite: Urls.Url, prefix: string)
    requires Consistent(s)
    requires Urls.Parse(link).Some?
    requires Key(Urls.Resolve(onSite, Urls.Parse(link).value)) !in s.urlToFile
    requires Urls.Resolve(onSite, Urls.Parse(link).value).fragment != ""
    ensures var (p1, s1) := HandleAsWritten(s, root, link, onSite, prefix);
            var (p2, _) := HandleAsWritten(s1, root, link, onSite, prefix);
            p1.localPath == p2.localPath && p2.relativeUrl != p1.relativeUrl
  {
    NewUrlGetsFreshName(s, root, link, onSite, prefix);
    var (p1, s1) := Handle(s, root, link, onSite, prefix);
    var key := Key(Urls.Resolve(onSite, Urls.Parse(link).value));
    assert s1.urlToFile[key] == p1.localPath != "";
    HitReferenceLosesHash(p1.localPath, p1.url.fragment);
  }

  /** Corrected: the first and every later resolution of a resource with the
      same fragment produce the same reference. */
  lemma {:induction false} HitReferenceCorrected(s: Store, root: Urls.Url, link: string, onSite: Urls.Url, prefix: string)
    requires Consistent(s)
    requires Urls.Parse(link).Some?
    ensures var (p1, s1) := Handle(s, root, link, onSite, prefix);
            var (p2, _) := Handle(s1, root, link, onSite, prefix);
            p2.relativeUrl == p1.relativeUrl
  {
    SameResourceSameFile(s, root, link, onSite, prefix, link, onSite, prefix);
  }

  /** The retry names as written: each retry takes the extension of the previous
      joined file name and slices that many characters off the derived name;
      None stands for the slice going out of range (a run-time panic). */
  function RetryAsWritten(prefix: string, rel: string, k: nat): Option<string>
    decreases k
  {
    if k == 0 then Some(Join(prefix, rel))
    else match RetryAsWritten(prefix, rel, k - 1)
      case None => None
      case Some(previous) => RetryAfter(prefix, rel, k, Ext(previous))
  }

  /** One retry as written: the extension of the previous joined name is cut
      off the derived name; None when it is longer than the derived name. */
  function RetryAfter(prefix: string, rel: string, k: nat, extension: string): Option<string>
  {
    if |extension| <= |rel| then Some(Join(prefix, rel[..|rel| - |extension|] + "_" + Itoa(k) + extension))
    else None
  }

  /** Whenever joining does not collapse the derived name, the as-written retries
      are exactly the corrected candidates. */
  lemma {:induction false} RetryAsWrittenAgrees(prefix: string, rel: string, k: nat)
    requires Ext(rel) != ""
    requires StripLeadingSlashes(rel) != "."
    ensures RetryAsWritten(prefix, rel, k) == Some(Candidate(prefix, rel, k))
    decreases k
  {
    if k > 0 {
      RetryAsWrittenAgrees(prefix, rel, k - 1);
      CandidateKeepsExt(prefix, rel, k - 1);
      RetryUnfold(prefix, rel, k, Candidate(prefix, rel, k - 1));
      RetryAfterKeepsStem(prefix, rel, k);
    }
  }

  /** A retry as written is computed from the previous name alone. */
  lemma RetryUnfold(prefix: string, rel: string, k: nat, previous: string)
    requires k > 0 && RetryAsWritten(prefix, rel, k - 1) == Some(previous)
    ensures RetryAsWritten(prefix, rel, k) == RetryAfter(prefix, rel, k, Ext(previous))
  {
  }

  /** When the previous name kept the derived name's extension, the retry as
      written cuts exactly the stem. */
  lemma RetryAfterKeepsStem(prefix: string, rel: string, k: nat)
    ensures RetryAfter(prefix, rel, k, Ext(rel)) == Some(Join(prefix, Stem(rel) + "_" + Itoa(k) + Ext(rel)))
  {
    assert rel[..|rel| - |Ext(rel)|] == Stem(rel);
  }

  lemma CandidateKeepsExt(prefix: string, rel: string, k: nat)
    requires Ext(rel) != ""
    requires StripLeadingSlashes(rel) != "."
    ensures Ext(Candidate(prefix, rel, k)) == Ext(rel)
  {
    var e := Ext(rel);
    if k == 0 {
      StripAppend(Stem(rel), e);
      JoinKeepsExt(prefix, rel);
    } else {
      var name := Stem(rel) + "_" + Itoa(k) + e;
      ExtOfExtended(Stem(rel) + "_" + Itoa(k), e);
      StrippedRetryShape(rel, k);
      JoinKeepsExt(prefix, name);
    }
  }

  /** The input that shows it: a derived name "." under the prefix "styles".
      Join("styles", ".") is "styles", whose extension is empty; the first
      retry is "styles/._1", whose extension "._1" is longer than the derived
      name, so the second retry slices out of range. The corrected retry
      names exist for every counter. */
  lemma DotNameSecondRetryPanics()
    ensures RetryAsWritten("styles", ".", 1) == Some("styles/._1")
    ensures RetryAsWritten("styles", ".", 2) == None
    ensures Candidate("styles", ".", 2) == "styles/_2."
  {
    DotNameFirstRetry();
    ExtOfFirstRetry();
    DotNameCorrectedRetry();
  }

  /** A path without a dot has no extension. */
  lemma {:induction false} NoDotNoExt(p: string)
    requires forall i :: 0 <= i < |p| ==> p[i] != '.'
    ensures Ext(p) == ""
    decreases |p|
  {
    if p != [] && p[|p| - 1] != '/' {
      NoDotNoExt(p[..|p| - 1]);
    }
  }

  lemma NoDotInStyles()
    ensures Ext("styles") == ""
  {
    var styles := "styles";
    assert forall i :: 0 <= i < |styles| ==> styles[i] != '.';
    NoDotNoExt(styles);
  }

  /** The joined names of the example. */
  lemma StylesJoins()
    ensures Join("styles", ".") == "styles"
    ensures Join("styles", "._1") == "styles/._1"
  {
    assert StripLeadingSlashes(".") == ".";
    assert StripLeadingSlashes("._1") == "._1";
  }

  lemma DotNameFirstRetry()
    ensures RetryAsWritten("styles", ".", 0) == Some("styles")
    ensures RetryAsWritten("styles", ".", 1) == Some("styles/._1")
  {
    StylesJoins();
    RetryUnfold("styles", ".", 1, "styles");
    NoDotInStyles();
    assert Itoa(1) == "1";
    assert "."[..1 - 0] + "_" + "1" + "" == "._1";
  }

  lemma ExtOfFirstRetry()
    ensures Ext("styles/._1") == "._1"
  {
    var n := "styles/._1";
    assert n[..|n| - 1] == "styles/._";
    assert "styles/._"[..8] == "styles/.";
    assert Ext("styles/.") == ".";
    assert Ext("styles/._") == "._";
  }

  lemma DotNameCorrectedRetry()
    ensures Candidate("styles", ".", 2) == "styles/_2."
  {
    assert Itoa(2) == "2";
    assert Ext(".") == ".";
    assert Stem(".") == "";
    assert "" + "_" + "2" + "." == "_2.";
    assert StripLeadingSlashes("_2.") == "_2.";
  }
}
