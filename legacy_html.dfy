/** The page rewriter of the older tree (src/parser/html.go): four passes
    (stylesheets, images, anchors, scripts) over the document, each element
    resolved by the stateless resolver of src/parser/path.go. */
module LegacyHtml {
  import opened Wrappers
  import opened Strings
  import opened Urls
  import opened Dispatch
  import opened HtmlRules
  import LegacyPaths
  import FilePaths

  /** One element visited by a pass. No resolver state is threaded through:
      the result depends on the element and the page alone. */
  function LegacyVisit(pass: Pass, e: Element, location: Url, depth: nat, requiredPrefix: string): Visited
  {
    if !Selects(pass, e) then Visited(e, None)
    else
      var value := AttrOr(e, AttrName(pass));
      if Skips(pass, value) then Visited(e, None)
      else
        var p := LegacyPaths.HandlePath(location, value, Category(pass));
        Apply(pass, e, p.success, p.url, p.localPath, depth, requiredPrefix)
  }

  /** The document and the pass's tasks after a pass; no state is threaded. */
  type LegacyPassRun = Run<()>

  /** The callback of a pass, as a function of the element alone. */
  function LegacyVisitor(pass: Pass, location: Url, depth: nat, requiredPrefix: string)
    : (Element, ()) -> (Visited, ())
  {
    (e, u) => (LegacyVisit(pass, e, location, depth, requiredPrefix), u)
  }

  /** One pass over the elements in document order. */
  function LegacyRunPass(pass: Pass, elems: seq<Element>, location: Url, depth: nat,
                         requiredPrefix: string): (r: LegacyPassRun)
    ensures |r.doc| == |elems|
  {
    Walk(LegacyVisitor(pass, location, depth, requiredPrefix), elems, ())
  }

  /** The four passes of Process in their order, each on the document the
      previous one left, their tasks joined in that order. */
  function LegacyPage(elems: seq<Element>, location: Url, depth: nat, requiredPrefix: string): LegacyPassRun
  {
    var a := LegacyRunPass(Styles, elems, location, depth, requiredPrefix);
    var b := LegacyRunPass(Images, a.doc, location, depth, requiredPrefix);
    var c := LegacyRunPass(Anchors, b.doc, location, depth, requiredPrefix);
    var d := LegacyRunPass(Scripts, c.doc, location, depth, requiredPrefix);
    Run(d.doc, a.tasks + b.tasks + c.tasks + d.tasks, ())
  }

  /** One iteration of a pass's loop: storing the visited element back at `i`
      extends the pass's document and tasks by one element. */
  lemma LegacyPassStep(pass: Pass, elems: seq<Element>, i: nat, location: Url, depth: nat,
                       requiredPrefix: string, doc: seq<Element>, tasks: seq<DownloadArg>)
    requires i < |elems| == |doc| && doc[i] == elems[i]
    requires LegacyRunPass(pass, elems[..i], location, depth, requiredPrefix) == Run(doc[..i], tasks, ())
    ensures var v := LegacyVisit(pass, elems[i], location, depth, requiredPrefix);
            LegacyRunPass(pass, elems[..i + 1], location, depth, requiredPrefix)
            == Run(doc[i := v.elem][..i + 1], tasks + TaskList(v.task), ())
  {
    WalkNext(LegacyVisitor(pass, location, depth, requiredPrefix), elems, i, ());
    var v := LegacyVisit(pass, elems[i], location, depth, requiredPrefix);
    assert doc[i := v.elem][..i + 1] == doc[..i] + [v.elem];
  }

  /** Every element after a pass is the visit of the original element, whatever
      came before it: the older resolver keeps no memory between links. */
  lemma LegacyPassElementAt(pass: Pass, elems: seq<Element>, j: nat, location: Url,
                             depth: nat, requiredPrefix: string)
    requires j < |elems|
    ensures LegacyRunPass(pass, elems, location, depth, requiredPrefix).doc[j]
         == LegacyVisit(pass, elems[j], location, depth, requiredPrefix).elem
  {
    WalkAt(LegacyVisitor(pass, location, depth, requiredPrefix), elems, j, ());
  }

  /** A visit changes at most the pass's attribute, leaves unselected and
      skipped elements alone, and emits optional tasks at the pass's depth. */
  lemma LegacyVisitRules(pass: Pass, e: Element, location: Url, depth: nat, requiredPrefix: string)
    ensures var v := LegacyVisit(pass, e, location, depth, requiredPrefix);
            && SameExcept(e, v.elem, AttrName(pass))
            && (!Selects(pass, e) || Skips(pass, AttrOr(e, AttrName(pass))) ==> v == Visited(e, None))
            && AllAtDepth(TaskList(v.task), TaskDepth(pass, depth))
  {
    if Selects(pass, e) && !Skips(pass, AttrOr(e, AttrName(pass))) {
      var p := LegacyPaths.HandlePath(location, AttrOr(e, AttrName(pass)), Category(pass));
      ApplyRewrites(pass, e, p.success, p.url, p.localPath, depth, requiredPrefix);
      ApplyTaskDepth(pass, e, p.success, p.url, p.localPath, depth, requiredPrefix);
    }
  }

  /** A selected element whose link parses is rewritten to its local name,
      which always has an extension; for an anchor only inside the prefix. */
  lemma LegacyRewritesParsable(pass: Pass, e: Element, location: Url, depth: nat, requiredPrefix: string)
    requires Selects(pass, e) && !Skips(pass, AttrOr(e, AttrName(pass)))
    requires Parse(AttrOr(e, AttrName(pass))).Some?
    requires var p := LegacyPaths.HandlePath(location, AttrOr(e, AttrName(pass)), Category(pass));
             pass != Anchors || HasPrefix(ToString(p.url), requiredPrefix)
    ensures var p := LegacyPaths.HandlePath(location, AttrOr(e, AttrName(pass)), Category(pass));
            var v := LegacyVisit(pass, e, location, depth, requiredPrefix);
            && AttrName(pass) in v.elem.attrs && v.elem.attrs[AttrName(pass)] == p.localPath
            && FilePaths.Ext(v.elem.attrs[AttrName(pass)]) != ""
  {
    var p := LegacyPaths.HandlePath(location, AttrOr(e, AttrName(pass)), Category(pass));
    ApplyRewrites(pass, e, p.success, p.url, p.localPath, depth, requiredPrefix);
  }

  /** A relative anchor on a page with a scheme and a host is followed when
      the required prefix covers the page's site root: its printed URL is
      `scheme://host/` followed by the path, so the href becomes the local
      name and a task one level deeper is queued whenever that URL parses. */
  lemma LegacyRelativeAnchorFollowed(e: Element, location: Url, depth: nat, requiredPrefix: string)
    requires Selects(Anchors, e)
    requires var u := Parse(e.attrs["href"]);
             u.Some? && u.value.scheme == "" && u.value.host == "" && u.value.path != ""
    requires location.scheme != "" && location.host != ""
    requires HasPrefix(location.scheme + "://" + location.host + "/", requiredPrefix)
    ensures var p := LegacyPaths.HandlePath(location, e.attrs["href"], Category(Anchors));
            var v := LegacyVisit(Anchors, e, location, depth, requiredPrefix);
            && "href" in v.elem.attrs && v.elem.attrs["href"] == p.localPath
            && (v.task.Some? <==> Parse(ToString(p.url)).Some?)
            && (v.task.Some? ==> v.task.value == DownloadArg(Parse(ToString(p.url)).value, false, p.localPath, depth + 1))
  {
    var href := e.attrs["href"];
    assert AttrOr(e, AttrName(Anchors)) == href;
    var p := LegacyPaths.HandlePath(location, href, Category(Anchors));
    LegacyPaths.FillsFromLocation(location, href, Category(Anchors));
    PrintsUnderSiteRoot(p.url);
    PrefixTrans(ToString(p.url), location.scheme + "://" + location.host + "/", requiredPrefix);
    ApplyRewrites(Anchors, e, p.success, p.url, p.localPath, depth, requiredPrefix);
    ApplyTask(Anchors, e, p.success, p.url, p.localPath, depth, requiredPrefix);
  }

  /** A whole pass: at most one task per element, all optional and at the
      pass's depth, and every element keeps its tag. */
  lemma {:induction false} LegacyPassRules(pass: Pass, elems: seq<Element>, location: Url, depth: nat,
                                           requiredPrefix: string)
    ensures var r := LegacyRunPass(pass, elems, location, depth, requiredPrefix);
            && |r.tasks| <= |elems| && AllAtDepth(r.tasks, TaskDepth(pass, depth))
            && forall j :: 0 <= j < |elems| ==> r.doc[j].tag == elems[j].tag
    decreases |elems|
  {
    if elems != [] {
      var n := |elems| - 1;
      LegacyPassRules(pass, elems[..n], location, depth, requiredPrefix);
      LegacyVisitRules(pass, elems[n], location, depth, requiredPrefix);
      var r := LegacyRunPass(pass, elems, location, depth, requiredPrefix);
      forall j | 0 <= j < |elems|
        ensures r.doc[j].tag == elems[j].tag
      {
        LegacyPassElementAt(pass, elems, j, location, depth, requiredPrefix);
        LegacyVisitRules(pass, elems[j], location, depth, requiredPrefix);
      }
    }
  }

  /** A whole page: at most four tasks per element, all optional, anchors one
      level deeper and everything else at the page's depth. */
  lemma LegacyPageRules(elems: seq<Element>, location: Url, depth: nat, requiredPrefix: string)
    ensures var r := LegacyPage(elems, location, depth, requiredPrefix);
            && |r.doc| == |elems| && |r.tasks| <= 4 * |elems|
            && (forall t :: t in r.tasks ==> !t.isRequired && (t.depth == depth || t.depth == depth + 1))
            && forall j :: 0 <= j < |elems| ==> r.doc[j].tag == elems[j].tag
  {
    var a := LegacyRunPass(Styles, elems, location, depth, requiredPrefix);
    var b := LegacyRunPass(Images, a.doc, location, depth, requiredPrefix);
    var c := LegacyRunPass(Anchors, b.doc, location, depth, requiredPrefix);
    var d := LegacyRunPass(Scripts, c.doc, location, depth, requiredPrefix);
    LegacyPassRules(Styles, elems, location, depth, requiredPrefix);
    LegacyPassRules(Images, a.doc, location, depth, requiredPrefix);
    LegacyPassRules(Anchors, b.doc, location, depth, requiredPrefix);
    LegacyPassRules(Scripts, c.doc, location, depth, requiredPrefix);
  }

  class LegacyHtmlParser {
    const requiredPrefix: string
    var location: Url
    var depth: nat

    constructor (requiredPrefix: string)
      ensures this.requiredPrefix == requiredPrefix
    {
      this.requiredPrefix := requiredPrefix;
      location := EmptyUrl;
      depth := 0;
    }

    /** The callback a pass runs for one selected element. */
    method VisitElement(pass: Pass, e: Element) returns (v: Visited)
      ensures v == LegacyVisit(pass, e, location, depth, requiredPrefix)
    {
      if !Selects(pass, e) {
        return Visited(e, None);
      }
      var attr := AttrName(pass);
      var value := AttrOr(e, attr);
      if Skips(pass, value) {
        return Visited(e, None);
      }
      var processed := LegacyPaths.HandlePath(location, value, Category(pass));
      if !processed.success {
        return Visited(e, None);
      }
      if pass == Anchors && !HasPrefix(ToString(processed.url), requiredPrefix) {
        return Visited(e, None);
      }
      var downloadArg := NewDownloadArg(ToString(processed.url), false, processed.localPath, TaskDepth(pass, depth));
      var rewritten := e.(attrs := e.attrs[attr := processed.localPath]);
      if !downloadArg.Ok? {
        return Visited(rewritten, None);
      }
      return Visited(rewritten, Some(downloadArg.value));
    }

    /** One extraction pass (processCss, processImages, processLinks or
        processScripts) over the document in document order. */
    method ProcessPass(pass: Pass, doc: array<Element>) returns (tasks: seq<DownloadArg>)
      modifies doc
      ensures LegacyRunPass(pass, old(doc[..]), location, depth, requiredPrefix) == Run(doc[..], tasks, ())
    {
      ghost var elems := doc[..];
      tasks := [];
      for i := 0 to doc.Length
        invariant forall j :: i <= j < doc.Length ==> doc[j] == elems[j]
        invariant LegacyRunPass(pass, elems[..i], location, depth, requiredPrefix) == Run(doc[..i], tasks, ())
      {
        LegacyPassStep(pass, elems, i, location, depth, requiredPrefix, doc[..], tasks);
        var v := VisitElement(pass, doc[i]);
        doc[i] := v.elem;
        tasks := tasks + TaskList(v.task);
      }
      assert elems[..doc.Length] == elems && doc[..doc.Length] == doc[..];
    }

    /** Process: a page that cannot be parsed is an error; otherwise the four
        passes run in order and their tasks are joined in pass order. */
    method Process(doc: array<Element>, parsed: bool, download: DownloadArg)
      returns (result: Result<seq<DownloadArg>>)
      modifies this, doc
      ensures location == download.url && depth == download.depth
      ensures !parsed ==> result == Err("Could not parse html") && doc[..] == old(doc[..])
      ensures parsed ==> var r := LegacyPage(old(doc[..]), download.url, download.depth, requiredPrefix);
                         result == Ok(r.tasks) && doc[..] == r.doc
    {
      location := download.url;
      depth := download.depth;
      if !parsed {
        return Err("Could not parse html");
      }
      var css := ProcessPass(Styles, doc);
      var images := ProcessPass(Images, doc);
      var links := ProcessPass(Anchors, doc);
      var scripts := ProcessPass(Scripts, doc);
      var all := Concat([css, images, links, scripts]);
      FlattenFour(css, images, links, scripts);
      return Ok(all);
    }
  }
}
