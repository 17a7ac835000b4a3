/** The page rewriter of internal/parsers/html.go. The parsed document is an
    array of elements whose attributes the passes rewrite in place; the passes
    share the site's resolver (internal/parsers/path.go). */
module Html {
  import opened Wrappers
  import opened Strings
  import opened Urls
  import opened Paths
  import opened Dispatch
  import opened HtmlRules

  /** One element visited by a pass: selection, skip rule, resolution with the
      pass's category, then the rewrite and the download task. */
  function Visit(pass: Pass, e: Element, store: Store, root: Url, location: Url,
                 depth: nat, requiredPrefix: string): (Visited, Store)
  {
    if !Selects(pass, e) then (Visited(e, None), store)
    else
      var value := AttrOr(e, AttrName(pass));
      if Skips(pass, value) then (Visited(e, None), store)
      else
        var handled := Handle(store, root, value, location, Category(pass));
        var p := handled.0;
        (Apply(pass, e, p.success, p.url, p.localPath, depth, requiredPrefix), handled.1)
  }

  /** The document, the pass's tasks and the resolver's maps after a pass. */
  type PassRun = Run<Store>

  /** The callback of a pass, as a function of the element and the maps. */
  function Visitor(pass: Pass, root: Url, location: Url, depth: nat, requiredPrefix: string)
    : (Element, Store) -> (Visited, Store)
  {
    (e, s) => Visit(pass, e, s, root, location, depth, requiredPrefix)
  }

  /** One pass over the elements in document order, threading the maps. */
  function RunPass(pass: Pass, elems: seq<Element>, store: Store, root: Url, location: Url,
                   depth: nat, requiredPrefix: string): (r: PassRun)
    ensures |r.doc| == |elems|
  {
    Walk(Visitor(pass, root, location, depth, requiredPrefix), elems, store)
  }

  /** The passes one after the other, each on the document the previous one
      left, with their task lists appended in pass order. */
  function RunPasses(passes: seq<Pass>, elems: seq<Element>, store: Store, root: Url, location: Url,
                     depth: nat, requiredPrefix: string): (r: PassRun)
    ensures |r.doc| == |elems|
    decreases |passes|
  {
    if passes == [] then Run(elems, [], store)
    else
      var r := RunPasses(passes[..|passes| - 1], elems, store, root, location, depth, requiredPrefix);
      var q := RunPass(passes[|passes| - 1], r.doc, r.state, root, location, depth, requiredPrefix);
      Run(q.doc, r.tasks + q.tasks, q.state)
  }

  /** The order of the passes in Process. */
  const PassOrder: seq<Pass> := [Styles, Images, Anchors, Scripts, Posters, Sources]

  lemma RunPassNext(pass: Pass, elems: seq<Element>, i: nat, store: Store, root: Url, location: Url,
                    depth: nat, requiredPrefix: string)
    requires i < |elems|
    ensures var r := RunPass(pass, elems[..i], store, root, location, depth, requiredPrefix);
            var visited := Visit(pass, elems[i], r.state, root, location, depth, requiredPrefix);
            RunPass(pass, elems[..i + 1], store, root, location, depth, requiredPrefix)
            == Run(r.doc + [visited.0.elem], r.tasks + TaskList(visited.0.task), visited.1)
  {
    WalkNext(Visitor(pass, root, location, depth, requiredPrefix), elems, i, store);
  }

  /** Running one more pass after a list of passes. */
  lemma RunPassesSnoc(passes: seq<Pass>, pass: Pass, elems: seq<Element>, store: Store, root: Url, location: Url,
                      depth: nat, requiredPrefix: string, r: PassRun)
    requires r == RunPasses(passes, elems, store, root, location, depth, requiredPrefix)
    ensures var q := RunPass(pass, r.doc, r.state, root, location, depth, requiredPrefix);
            RunPasses(passes + [pass], elems, store, root, location, depth, requiredPrefix)
            == Run(q.doc, r.tasks + q.tasks, q.state)
  {
    assert (passes + [pass])[..|passes|] == passes;
  }

  /** PassOrder built one pass at a time. */
  lemma PassOrderSpelled()
    ensures [] + [Styles] + [Images] + [Anchors] + [Scripts] + [Posters] + [Sources] == PassOrder
  {
  }

  lemma JoinSix<T>(a: seq<T>, b: seq<T>, c: seq<T>, d: seq<T>, e: seq<T>, f: seq<T>)
    ensures [] + a + b + c + d + e + f == a + b + c + d + (e + f)
  {
  }

  /** The passes of a page in their order: styles, images, anchors, scripts,
      then the video pass's posters and sources, each on the document and the
      resolver the previous one left, their tasks joined in that order. */
  lemma PagePasses(elems: seq<Element>, store: Store, root: Url, location: Url,
                   depth: nat, requiredPrefix: string)
    ensures var a := RunPass(Styles, elems, store, root, location, depth, requiredPrefix);
            var b := RunPass(Images, a.doc, a.state, root, location, depth, requiredPrefix);
            var c := RunPass(Anchors, b.doc, b.state, root, location, depth, requiredPrefix);
            var d := RunPass(Scripts, c.doc, c.state, root, location, depth, requiredPrefix);
            var e := RunPass(Posters, d.doc, d.state, root, location, depth, requiredPrefix);
            var f := RunPass(Sources, e.doc, e.state, root, location, depth, requiredPrefix);
            RunPasses(PassOrder, elems, store, root, location, depth, requiredPrefix)
            == Run(f.doc, a.tasks + b.tasks + c.tasks + d.tasks + (e.tasks + f.tasks), f.state)
  {
    var a := RunPass(Styles, elems, store, root, location, depth, requiredPrefix);
    var b := RunPass(Images, a.doc, a.state, root, location, depth, requiredPrefix);
    var c := RunPass(Anchors, b.doc, b.state, root, location, depth, requiredPrefix);
    var d := RunPass(Scripts, c.doc, c.state, root, location, depth, requiredPrefix);
    var e := RunPass(Posters, d.doc, d.state, root, location, depth, requiredPrefix);
    var f := RunPass(Sources, e.doc, e.state, root, location, depth, requiredPrefix);
    PassOrderSpelled();
    var p0: seq<Pass> := [];
    var p1 := p0 + [Styles];
    var p2 := p1 + [Images];
    var p3 := p2 + [Anchors];
    var p4 := p3 + [Scripts];
    var p5 := p4 + [Posters];
    var p6 := p5 + [Sources];
    var r0 := Run(elems, [], store);
    RunPassesSnoc(p0, Styles, elems, store, root, location, depth, requiredPrefix, r0);
    var r1 := Run(a.doc, [] + a.tasks, a.state);
    RunPassesSnoc(p1, Images, elems, store, root, location, depth, requiredPrefix, r1);
    var r2 := Run(b.doc, r1.tasks + b.tasks, b.state);
    RunPassesSnoc(p2, Anchors, elems, store, root, location, depth, requiredPrefix, r2);
    var r3 := Run(c.doc, r2.tasks + c.tasks, c.state);
    RunPassesSnoc(p3, Scripts, elems, store, root, location, depth, requiredPrefix, r3);
    var r4 := Run(d.doc, r3.tasks + d.tasks, d.state);
    RunPassesSnoc(p4, Posters, elems, store, root, location, depth, requiredPrefix, r4);
    var r5 := Run(e.doc, r4.tasks + e.tasks, e.state);
    RunPassesSnoc(p5, Sources, elems, store, root, location, depth, requiredPrefix, r5);
    JoinSix(a.tasks, b.tasks, c.tasks, d.tasks, e.tasks, f.tasks);
  }

  /** One iteration of a pass's loop: storing the visited element back at `i`
      extends the pass's document, tasks and resolver by one element. */
  lemma PassStep(pass: Pass, elems: seq<Element>, i: nat, store: Store, root: Url, location: Url,
                 depth: nat, requiredPrefix: string, doc: seq<Element>, tasks: seq<DownloadArg>)
    requires i < |elems| == |doc| && doc[i] == elems[i]
    requires var r := RunPass(pass, elems[..i], store, root, location, depth, requiredPrefix);
             doc[..i] == r.doc && tasks == r.tasks
    ensures var r := RunPass(pass, elems[..i], store, root, location, depth, requiredPrefix);
            var visited := Visit(pass, elems[i], r.state, root, location, depth, requiredPrefix);
            var next := RunPass(pass, elems[..i + 1], store, root, location, depth, requiredPrefix);
            && doc[i := visited.0.elem][..i + 1] == next.doc
            && tasks + TaskList(visited.0.task) == next.tasks
            && visited.1 == next.state
  {
    RunPassNext(pass, elems, i, store, root, location, depth, requiredPrefix);
    var r := RunPass(pass, elems[..i], store, root, location, depth, requiredPrefix);
    var visited := Visit(pass, elems[i], r.state, root, location, depth, requiredPrefix);
    assert doc[i := visited.0.elem][..i + 1] == r.doc + [visited.0.elem];
  }

  /** Inline images (`data:` sources) and scripts, posters and sources with an
      empty link are left alone, emit nothing and do not touch the resolver. */
  lemma InlineResourcesSkipped(pass: Pass, e: Element, store: Store, root: Url, location: Url,
                               depth: nat, requiredPrefix: string)
    requires Selects(pass, e)
    requires || (pass == Images && HasPrefix(AttrOr(e, "src"), "data:"))
             || (pass == Scripts && AttrOr(e, "src") == "")
             || (pass == Posters && AttrOr(e, "poster") == "")
             || (pass == Sources && AttrOr(e, "src") == "")
    ensures Visit(pass, e, store, root, location, depth, requiredPrefix) == (Visited(e, None), store)
  {
  }

  /** An anchor whose resolved URL lacks the required prefix emits nothing and
      keeps its `href`; the resolver has still recorded the URL. */
  lemma AnchorOutsidePrefixKept(e: Element, store: Store, root: Url, location: Url,
                                depth: nat, requiredPrefix: string)
    requires Selects(Anchors, e)
    requires var h := Handle(store, root, e.attrs["href"], location, ".");
             h.0.success && !HasPrefix(ToString(h.0.url), requiredPrefix)
    ensures Visit(Anchors, e, store, root, location, depth, requiredPrefix).0 == Visited(e, None)
    ensures Visit(Anchors, e, store, root, location, depth, requiredPrefix).1
         == Handle(store, root, e.attrs["href"], location, ".").1
  {
  }

  /** A selected element whose link resolves (inside the prefix, for anchors)
      has its attribute set to the local path even when no task can be built. */
  lemma RewrittenEvenWithoutTask(pass: Pass, e: Element, store: Store, root: Url, location: Url,
                                 depth: nat, requiredPrefix: string)
    requires Selects(pass, e) && !Skips(pass, AttrOr(e, AttrName(pass)))
    requires Parse(AttrOr(e, AttrName(pass))).Some?
    requires var h := Handle(store, root, AttrOr(e, AttrName(pass)), location, Category(pass));
             pass != Anchors || HasPrefix(ToString(h.0.url), requiredPrefix)
    ensures var h := Handle(store, root, AttrOr(e, AttrName(pass)), location, Category(pass));
            var v := Visit(pass, e, store, root, location, depth, requiredPrefix).0;
            && AttrName(pass) in v.elem.attrs && v.elem.attrs[AttrName(pass)] == h.0.localPath
            && (v.task.None? <==> Parse(ToString(h.0.url)).None?)
  {
    var value := AttrOr(e, AttrName(pass));
    var h := Handle(store, root, value, location, Category(pass));
    ParsableSucceeds(store, root, value, location, Category(pass));
    ApplyRewrites(pass, e, h.0.success, h.0.url, h.0.localPath, depth, requiredPrefix);
    ApplyTask(pass, e, h.0.success, h.0.url, h.0.localPath, depth, requiredPrefix);
  }

  /** A visit changes only the pass's attribute, leaves unselected and skipped
      elements and the resolver alone, keeps the resolver consistent and
      growing, and emits tasks at the pass's depth. */
  lemma VisitRules(pass: Pass, e: Element, store: Store, root: Url, location: Url,
                   depth: nat, requiredPrefix: string)
    requires Consistent(store)
    ensures var (v, s) := Visit(pass, e, store, root, location, depth, requiredPrefix);
            && SameExcept(e, v.elem, AttrName(pass))
            && (Untouched(pass, e) ==> v == Visited(e, None) && s == store)
            && Consistent(s) && Grows(store, s)
            && AllAtDepth(TaskList(v.task), TaskDepth(pass, depth))
  {
    if Selects(pass, e) && !Skips(pass, AttrOr(e, AttrName(pass))) {
      var value := AttrOr(e, AttrName(pass));
      HandleKeepsConsistent(store, root, value, location, Category(pass));
      HandleGrows(store, root, value, location, Category(pass));
      var h := Handle(store, root, value, location, Category(pass));
      ApplyRewrites(pass, e, h.0.success, h.0.url, h.0.localPath, depth, requiredPrefix);
      ApplyTaskDepth(pass, e, h.0.success, h.0.url, h.0.localPath, depth, requiredPrefix);
    }
  }

  /** An element a pass does not select, or whose link it skips. */
  predicate Untouched(pass: Pass, e: Element)
  {
    !Selects(pass, e) || Skips(pass, AttrOr(e, AttrName(pass)))
  }

  /** The element at `j` after a pass is the visit of the original element
      with the resolver as the earlier elements left it. */
  lemma PassElementAt(pass: Pass, elems: seq<Element>, j: nat, store: Store, root: Url,
                                         location: Url, depth: nat, requiredPrefix: string)
    requires j < |elems|
    ensures RunPass(pass, elems, store, root, location, depth, requiredPrefix).doc[j]
         == Visit(pass, elems[j], RunPass(pass, elems[..j], store, root, location, depth, requiredPrefix).state,
                  root, location, depth, requiredPrefix).0.elem
    decreases |elems|
  {
    WalkAt(Visitor(pass, root, location, depth, requiredPrefix), elems, j, store);
  }

  /** A whole pass on the document: every element keeps all but the pass's
      attribute, and untouched elements are unchanged. */
  lemma PassElements(pass: Pass, elems: seq<Element>, store: Store, root: Url, location: Url,
                     depth: nat, requiredPrefix: string)
    requires Consistent(store)
    ensures var r := RunPass(pass, elems, store, root, location, depth, requiredPrefix);
            && (forall j :: 0 <= j < |elems| ==> SameExcept(elems[j], r.doc[j], AttrName(pass)))
            && (forall j :: 0 <= j < |elems| && Untouched(pass, elems[j]) ==> r.doc[j] == elems[j])
  {
    forall j | 0 <= j < |elems|
      ensures SameExcept(elems[j], RunPass(pass, elems, store, root, location, depth, requiredPrefix).doc[j], AttrName(pass))
      ensures Untouched(pass, elems[j])
              ==> RunPass(pass, elems, store, root, location, depth, requiredPrefix).doc[j] == elems[j]
    {
      PassElementAt(pass, elems, j, store, root, location, depth, requiredPrefix);
      PassResolver(pass, elems[..j], store, root, location, depth, requiredPrefix);
      var before := RunPass(pass, elems[..j], store, root, location, depth, requiredPrefix).state;
      VisitRules(pass, elems[j], before, root, location, depth, requiredPrefix);
    }
  }

  /** A whole pass on the resolver: it stays consistent and only grows. */
  lemma {:induction false} PassResolver(pass: Pass, elems: seq<Element>, store: Store, root: Url, location: Url,
                                        depth: nat, requiredPrefix: string)
    requires Consistent(store)
    ensures var r := RunPass(pass, elems, store, root, location, depth, requiredPrefix);
            Consistent(r.state) && Grows(store, r.state)
    decreases |elems|
  {
    if elems != [] {
      var n := |elems| - 1;
      PassResolver(pass, elems[..n], store, root, location, depth, requiredPrefix);
      var r := RunPass(pass, elems[..n], store, root, location, depth, requiredPrefix);
      VisitRules(pass, elems[n], r.state, root, location, depth, requiredPrefix);
      GrowsTransitive(store, r.state, Visit(pass, elems[n], r.state, root, location, depth, requiredPrefix).1);
    }
  }

  /** A whole pass's tasks: at most one per element, all optional and at the
      pass's depth. */
  lemma {:induction false} PassTasks(pass: Pass, elems: seq<Element>, store: Store, root: Url, location: Url,
                                     depth: nat, requiredPrefix: string)
    requires Consistent(store)
    ensures var r := RunPass(pass, elems, store, root, location, depth, requiredPrefix);
            |r.tasks| <= |elems| && AllAtDepth(r.tasks, TaskDepth(pass, depth))
    decreases |elems|
  {
    if elems != [] {
      var n := |elems| - 1;
      PassTasks(pass, elems[..n], store, root, location, depth, requiredPrefix);
      PassResolver(pass, elems[..n], store, root, location, depth, requiredPrefix);
      var r := RunPass(pass, elems[..n], store, root, location, depth, requiredPrefix);
      VisitRules(pass, elems[n], r.state, root, location, depth, requiredPrefix);
    }
  }

  /** All passes of a page: optional tasks at the page's depth or one below,
      a consistent and growing resolver, tags unchanged. */
  lemma {:induction false} PassesRules(passes: seq<Pass>, elems: seq<Element>, store: Store, root: Url, location: Url,
                                       depth: nat, requiredPrefix: string)
    requires Consistent(store)
    ensures var r := RunPasses(passes, elems, store, root, location, depth, requiredPrefix);
            && (forall j :: 0 <= j < |elems| ==> r.doc[j].tag == elems[j].tag)
            && (forall t :: t in r.tasks ==> !t.isRequired && (t.depth == depth || t.depth == depth + 1))
            && (Anchors !in passes ==> AllAtDepth(r.tasks, depth))
            && Consistent(r.state) && Grows(store, r.state)
    decreases |passes|
  {
    if passes != [] {
      var init := passes[..|passes| - 1];
      PassesRules(init, elems, store, root, location, depth, requiredPrefix);
      var r := RunPasses(init, elems, store, root, location, depth, requiredPrefix);
      var last := passes[|passes| - 1];
      PassElements(last, r.doc, r.state, root, location, depth, requiredPrefix);
      PassResolver(last, r.doc, r.state, root, location, depth, requiredPrefix);
      PassTasks(last, r.doc, r.state, root, location, depth, requiredPrefix);
      var q := RunPass(last, r.doc, r.state, root, location, depth, requiredPrefix);
      GrowsTransitive(store, r.state, q.state);
      assert forall j :: 0 <= j < |elems| ==> q.doc[j].tag == r.doc[j].tag;
      if Anchors !in passes {
        assert Anchors !in init;
        assert last != Anchors;
      }
    }
  }

  class HtmlParser {
    const pathProcessor: PathProcessor
    const requiredPrefix: string
    var location: Url
    var depth: nat

    constructor (pathProcessor: PathProcessor, requiredPrefix: string)
      ensures this.pathProcessor == pathProcessor && this.requiredPrefix == requiredPrefix
    {
      this.pathProcessor := pathProcessor;
      this.requiredPrefix := requiredPrefix;
      location := EmptyUrl;
      depth := 0;
    }

    /** The callback a pass runs for one selected element. */
    method VisitElement(pass: Pass, e: Element) returns (v: Visited)
      requires pathProcessor.Valid()
      modifies pathProcessor
      ensures pathProcessor.Valid()
      ensures (v, pathProcessor.Maps())
           == Visit(pass, e, old(pathProcessor.Maps()), pathProcessor.location, location, depth, requiredPrefix)
    {
      if !Selects(pass, e) {
        return Visited(e, None);
      }
      var attr := AttrName(pass);
      var value := AttrOr(e, attr);
      if Skips(pass, value) {
        return Visited(e, None);
      }
      var processed := pathProcessor.HandlePath(value, location, Category(pass));
      if !processed.success {
        return Visited(e, None);
      }
      if pass == Anchors && !HasPrefix(ToString(processed.url), requiredPrefix) {
        return Visited(e, None);
      }
      var downloadArg := NewDownloadArg(ToString(processed.url), false, processed.localPath, TaskDepth(pass, depth));
      var rewritten := e.(attrs := e.attrs[attr := processed.localPath]);
      if !downloadArg.Ok? {
        return Visited(rewritten, None);
      }
      return Visited(rewritten, Some(downloadArg.value));
    }

    /** One extraction pass over the document in document order. */
    method ProcessPass(pass: Pass, doc: array<Element>) returns (tasks: seq<DownloadArg>)
      requires pathProcessor.Valid()
      modifies doc, pathProcessor
      ensures pathProcessor.Valid()
      ensures var r := RunPass(pass, old(doc[..]), old(pathProcessor.Maps()), pathProcessor.location,
                               location, depth, requiredPrefix);
              doc[..] == r.doc && tasks == r.tasks && pathProcessor.Maps() == r.state
    {
      ghost var elems := doc[..];
      ghost var store := pathProcessor.Maps();
      tasks := [];
      for i := 0 to doc.Length
        invariant pathProcessor.Valid()
        invariant forall j :: i <= j < doc.Length ==> doc[j] == elems[j]
        invariant var r := RunPass(pass, elems[..i], store, pathProcessor.location, location, depth, requiredPrefix);
                  doc[..i] == r.doc && tasks == r.tasks && pathProcessor.Maps() == r.state
      {
        ghost var r := RunPass(pass, elems[..i], store, pathProcessor.location, location, depth, requiredPrefix);
        PassStep(pass, elems, i, store, pathProcessor.location, location, depth, requiredPrefix, doc[..], tasks);
        tasks := VisitAt(pass, doc, i, elems[i], r.state, tasks);
      }
      assert elems[..doc.Length] == elems && doc[..doc.Length] == doc[..];
    }

    /** The body of a pass's loop: visit element `i` and store it back. */
    method VisitAt(pass: Pass, doc: array<Element>, i: nat, ghost e: Element, ghost s: Store,
                   tasks: seq<DownloadArg>) returns (tasks': seq<DownloadArg>)
      requires pathProcessor.Valid() && i < doc.Length && doc[i] == e && pathProcessor.Maps() == s
      modifies doc, pathProcessor
      ensures pathProcessor.Valid()
      ensures var visited := Visit(pass, e, s, pathProcessor.location, location, depth, requiredPrefix);
              && doc[..] == old(doc[..])[i := visited.0.elem]
              && tasks' == tasks + TaskList(visited.0.task) && pathProcessor.Maps() == visited.1
    {
      var v := VisitElement(pass, doc[i]);
      doc[i] := v.elem;
      tasks' := tasks + TaskList(v.task);
    }

    /** processCss: stylesheets under "styles", at the page's depth. */
    method ProcessCss(doc: array<Element>) returns (tasks: seq<DownloadArg>)
      requires pathProcessor.Valid()
      modifies doc, pathProcessor
      ensures pathProcessor.Valid()
      ensures var r := RunPass(Styles, old(doc[..]), old(pathProcessor.Maps()), pathProcessor.location,
                               location, depth, requiredPrefix);
              doc[..] == r.doc && tasks == r.tasks && pathProcessor.Maps() == r.state
    {
      tasks := ProcessPass(Styles, doc);
    }

    /** processImages: images under "img", inline images skipped. */
    method ProcessImages(doc: array<Element>) returns (tasks: seq<DownloadArg>)
      requires pathProcessor.Valid()
      modifies doc, pathProcessor
      ensures pathProcessor.Valid()
      ensures var r := RunPass(Images, old(doc[..]), old(pathProcessor.Maps()), pathProcessor.location,
                               location, depth, requiredPrefix);
              doc[..] == r.doc && tasks == r.tasks && pathProcessor.Maps() == r.state
    {
      tasks := ProcessPass(Images, doc);
    }

    /** processLinks: pages under ".", one level deeper, inside the prefix only. */
    method ProcessLinks(doc: array<Element>) returns (tasks: seq<DownloadArg>)
      requires pathProcessor.Valid()
      modifies doc, pathProcessor
      ensures pathProcessor.Valid()
      ensures var r := RunPass(Anchors, old(doc[..]), old(pathProcessor.Maps()), pathProcessor.location,
                               location, depth, requiredPrefix);
              doc[..] == r.doc && tasks == r.tasks && pathProcessor.Maps() == r.state
    {
      tasks := ProcessPass(Anchors, doc);
    }

    /** processScripts: scripts under "js", empty sources skipped. */
    method ProcessScripts(doc: array<Element>) returns (tasks: seq<DownloadArg>)
      requires pathProcessor.Valid()
      modifies doc, pathProcessor
      ensures pathProcessor.Valid()
      ensures var r := RunPass(Scripts, old(doc[..]), old(pathProcessor.Maps()), pathProcessor.location,
                               location, depth, requiredPrefix);
              doc[..] == r.doc && tasks == r.tasks && pathProcessor.Maps() == r.state
    {
      tasks := ProcessPass(Scripts, doc);
    }

    /** processVideo: video posters, then video sources, under "video". */
    method ProcessVideo(doc: array<Element>) returns (tasks: seq<DownloadArg>)
      requires pathProcessor.Valid()
      modifies doc, pathProcessor
      ensures pathProcessor.Valid()
      ensures var a := RunPass(Posters, old(doc[..]), old(pathProcessor.Maps()), pathProcessor.location,
                               location, depth, requiredPrefix);
              var b := RunPass(Sources, a.doc, a.state, pathProcessor.location, location, depth, requiredPrefix);
              doc[..] == b.doc && tasks == a.tasks + b.tasks && pathProcessor.Maps() == b.state
    {
      var posters := ProcessPass(Posters, doc);
      var sources := ProcessPass(Sources, doc);
      tasks := posters + sources;
    }

    /** Process: a page that cannot be parsed is an error; otherwise the passes
        run in order and their tasks are joined in pass order. */
    method Process(doc: array<Element>, parsed: bool, download: DownloadArg)
      returns (result: Result<seq<DownloadArg>>)
      requires pathProcessor.Valid()
      modifies this, doc, pathProcessor
      ensures pathProcessor.Valid() && location == download.url && depth == download.depth
      ensures !parsed ==> && result == Err("Could not parse html")
                          && doc[..] == old(doc[..]) && pathProcessor.Maps() == old(pathProcessor.Maps())
      ensures parsed ==> var r := RunPasses(PassOrder, old(doc[..]), old(pathProcessor.Maps()),
                                            pathProcessor.location, download.url, download.depth, requiredPrefix);
                         result == Ok(r.tasks) && doc[..] == r.doc && pathProcessor.Maps() == r.state
    {
      location := download.url;
      depth := download.depth;
      if !parsed {
        return Err("Could not parse html");
      }
      ghost var elems := doc[..];
      ghost var store := pathProcessor.Maps();
      var css := ProcessCss(doc);
      var images := ProcessImages(doc);
      var links := ProcessLinks(doc);
      var scripts := ProcessScripts(doc);
      var video := ProcessVideo(doc);
      var all := Concat([css, images, links, scripts, video]);
      FlattenFive(css, images, links, scripts, video);
      PagePasses(elems, store, pathProcessor.location, location, depth, requiredPrefix);
      return Ok(all);
    }
  }
}
