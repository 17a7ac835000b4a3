/** What the HTML extraction passes of both trees share (internal/parsers/html.go
    and src/parser/html.go): which elements a pass selects, which attribute it
    reads and rewrites, when it skips an element, the depth of the tasks it
    emits, and the `concat` that joins the passes' task lists. */
module HtmlRules {
  import opened Wrappers
  import opened Strings
  import opened Urls
  import opened Dispatch

  /** An element of the parsed document: its tag and its attributes. */
  datatype Element = Element(tag: string, attrs: map<string, string>)

  /** The extraction passes: `link[rel="stylesheet"]`, `img[src]`, `a[href]`,
      `script[src]`, the `poster` of `video` and the `src` of `source`. */
  datatype Pass = Styles | Images | Anchors | Scripts | Posters | Sources

  /** goquery's AttrOr(name, ""). */
  function AttrOr(e: Element, name: string): string
  {
    if name in e.attrs then e.attrs[name] else ""
  }

  /** The selector of each pass. */
  predicate Selects(pass: Pass, e: Element)
  {
    match pass
    case Styles => e.tag == "link" && "rel" in e.attrs && e.attrs["rel"] == "stylesheet"
    case Images => e.tag == "img" && "src" in e.attrs
    case Anchors => e.tag == "a" && "href" in e.attrs
    case Scripts => e.tag == "script" && "src" in e.attrs
    case Posters => e.tag == "video"
    case Sources => e.tag == "source"
  }

  /** The attribute a pass reads and rewrites. */
  function AttrName(pass: Pass): string
  {
    match pass
    case Styles => "href"
    case Anchors => "href"
    case Posters => "poster"
    case _ => "src"
  }

  /** Inline images and empty script, poster and source links are skipped. */
  predicate Skips(pass: Pass, value: string)
  {
    match pass
    case Images => HasPrefix(value, "data:")
    case Scripts => value == ""
    case Posters => value == ""
    case Sources => value == ""
    case _ => false
  }

  /** The local directory a pass stores its files in. */
  function Category(pass: Pass): string
  {
    match pass
    case Styles => "styles"
    case Images => "img"
    case Anchors => "."
    case Scripts => "js"
    case _ => "video"
  }

  /** Pages reached through anchors are one level deeper; resources of the
      page stay at its depth. */
  function TaskDepth(pass: Pass, depth: nat): nat
  {
    if pass == Anchors then depth + 1 else depth
  }

  /** The element after the visit and the download task it produced, if any. */
  datatype Visited = Visited(elem: Element, task: Option<DownloadArg>)

  /** The end of a visit once the resolver has answered: a failed resolution
      leaves the element alone; an anchor outside the required prefix too;
      otherwise the attribute is set to the local path and then the download task is
      built from the printed URL, which may still fail. */
  function Apply(pass: Pass, e: Element, success: bool, url: Url, localPath: string,
                 depth: nat, requiredPrefix: string): Visited
  {
    if !success then Visited(e, None)
    else if pass == Anchors && !HasPrefix(ToString(url), requiredPrefix) then Visited(e, None)
    else
      var rewritten := e.(attrs := e.attrs[AttrName(pass) := localPath]);
      match NewDownloadArg(ToString(url), false, localPath, TaskDepth(pass, depth))
      case Ok(a) => Visited(rewritten, Some(a))
      case _ => Visited(rewritten, None)
  }

  /** `e2` is `e` with at most the attribute `name` changed. */
  predicate SameExcept(e: Element, e2: Element, name: string)
  {
    e2.tag == e.tag && e2.attrs - {name} == e.attrs - {name}
  }

  /** A visit changes at most the pass's own attribute, and leaves the element
      alone unless the resolution succeeded (and, for anchors, the resolved URL
      has the required prefix); in that case the attribute holds the local path
      whether or not a task could be built. */
  lemma ApplyRewrites(pass: Pass, e: Element, success: bool, url: Url, localPath: string,
                      depth: nat, requiredPrefix: string)
    ensures var v := Apply(pass, e, success, url, localPath, depth, requiredPrefix);
            && SameExcept(e, v.elem, AttrName(pass))
            && (v.elem == e || v.elem.attrs[AttrName(pass)] == localPath)
            && (!success ==> v == Visited(e, None))
            && (success && pass == Anchors && !HasPrefix(ToString(url), requiredPrefix) ==> v == Visited(e, None))
            && (success && (pass != Anchors || HasPrefix(ToString(url), requiredPrefix))
                ==> AttrName(pass) in v.elem.attrs && v.elem.attrs[AttrName(pass)] == localPath)
  {
  }

  /** A task is emitted exactly when the visit rewrote the element and its
      printed URL parses again; it is optional, saved under the local path, at
      the pass's depth. */
  lemma ApplyTask(pass: Pass, e: Element, success: bool, url: Url, localPath: string,
                  depth: nat, requiredPrefix: string)
    ensures var v := Apply(pass, e, success, url, localPath, depth, requiredPrefix);
            && (v.task.Some? <==> success && (pass != Anchors || HasPrefix(ToString(url), requiredPrefix))
                                  && Parse(ToString(url)).Some?)
            && (v.task.Some? ==> v.task.value == DownloadArg(Parse(ToString(url)).value, false, localPath,
                                                             TaskDepth(pass, depth)))
  {
  }

  /** The download task a visit emitted, as a list of zero or one tasks. */
  function TaskList(task: Option<DownloadArg>): seq<DownloadArg>
  {
    if task.Some? then [task.value] else []
  }

  /** Whatever the resolver answered, the download task of a visit is optional and at
      the pass's depth. */
  lemma ApplyTaskDepth(pass: Pass, e: Element, success: bool, url: Url, localPath: string,
                       depth: nat, requiredPrefix: string)
    ensures AllAtDepth(TaskList(Apply(pass, e, success, url, localPath, depth, requiredPrefix).task),
                       TaskDepth(pass, depth))
  {
    ApplyTask(pass, e, success, url, localPath, depth, requiredPrefix);
  }

  /** The document, the tasks and the threaded state after a pass. */
  datatype Run<S> = Run(doc: seq<Element>, tasks: seq<DownloadArg>, state: S)

  /** A pass over the elements in document order: each element is visited
      with the state the earlier ones left and replaced by its visit, and its
      task is appended. */
  function Walk<S>(visit: (Element, S) -> (Visited, S), elems: seq<Element>, start: S): (r: Run<S>)
    ensures |r.doc| == |elems|
    decreases |elems|
  {
    if elems == [] then Run([], [], start)
    else
      var r := Walk(visit, elems[..|elems| - 1], start);
      var visited := visit(elems[|elems| - 1], r.state);
      Run(r.doc + [visited.0.elem], r.tasks + TaskList(visited.0.task), visited.1)
  }

  /** A walk over one more element. */
  lemma WalkNext<S>(visit: (Element, S) -> (Visited, S), elems: seq<Element>, i: nat, start: S)
    requires i < |elems|
    ensures var r := Walk(visit, elems[..i], start);
            var visited := visit(elems[i], r.state);
            Walk(visit, elems[..i + 1], start)
            == Run(r.doc + [visited.0.elem], r.tasks + TaskList(visited.0.task), visited.1)
  {
    assert elems[..i + 1][..i] == elems[..i];
  }

  /** The element at `j` after a walk is the visit of the original element
      with the state the earlier elements left. */
  lemma {:induction false} WalkAt<S>(visit: (Element, S) -> (Visited, S), elems: seq<Element>, j: nat, start: S)
    requires j < |elems|
    ensures Walk(visit, elems, start).doc[j] == visit(elems[j], Walk(visit, elems[..j], start).state).0.elem
    decreases |elems|
  {
    var n := |elems| - 1;
    if j < n {
      var init := elems[..n];
      assert init[..j] == elems[..j] && init[j] == elems[j];
      WalkAt(visit, init, j, start);
    } else {
      assert elems[..j] == elems[..n];
    }
  }

  /** All tasks of a list are optional and at the given depth. */
  predicate AllAtDepth(tasks: seq<DownloadArg>, depth: nat)
  {
    forall t :: t in tasks ==> !t.isRequired && t.depth == depth
  }

  /** The slices joined left to right. */
  function Flatten<T>(slices: seq<seq<T>>): seq<T>
    decreases |slices|
  {
    if slices == [] then [] else Flatten(slices[..|slices| - 1]) + slices[|slices| - 1]
  }

  /** The sum of the slices' lengths, as `concat`'s first loop computes it. */
  function TotalLength<T>(slices: seq<seq<T>>): nat
    decreases |slices|
  {
    if slices == [] then 0 else TotalLength(slices[..|slices| - 1]) + |slices[|slices| - 1]|
  }

  /** The joined slice is as long as the slices together. */
  lemma {:induction false} FlattenLength<T>(slices: seq<seq<T>>)
    ensures |Flatten(slices)| == TotalLength(slices)
    decreases |slices|
  {
    if slices != [] {
      FlattenLength(slices[..|slices| - 1]);
    }
  }

  /** Every element of every slice is in the joined slice, at the offset of its
      slice, so no element is lost or moved. */
  lemma {:induction false} FlattenKeepsOrder<T>(slices: seq<seq<T>>, k: nat, j: nat)
    requires k < |slices| && j < |slices[k]|
    ensures TotalLength(slices[..k]) + j < |Flatten(slices)|
    ensures Flatten(slices)[TotalLength(slices[..k]) + j] == slices[k][j]
    decreases |slices|
  {
    var init := slices[..|slices| - 1];
    FlattenLength(init);
    if k == |slices| - 1 {
      assert slices[..k] == init;
    } else {
      assert init[..k] == slices[..k];
      FlattenKeepsOrder(init, k, j);
    }
  }

  /** Four task lists joined are the lists appended in order. */
  lemma FlattenFour<T>(a: seq<T>, b: seq<T>, c: seq<T>, d: seq<T>)
    ensures Flatten([a, b, c, d]) == a + b + c + d
  {
    assert [a][..0] == [];
    assert Flatten([a]) == a;
    assert [a, b][..1] == [a];
    assert Flatten([a, b]) == a + b;
    assert [a, b, c][..2] == [a, b];
    assert Flatten([a, b, c]) == a + b + c;
    assert [a, b, c, d][..3] == [a, b, c];
  }

  /** Five task lists joined are the lists appended in order. */
  lemma FlattenFive<T>(a: seq<T>, b: seq<T>, c: seq<T>, d: seq<T>, e: seq<T>)
    ensures Flatten([a, b, c, d, e]) == a + b + c + d + e
  {
    FlattenFour(a, b, c, d);
    assert [a, b, c, d, e][..4] == [a, b, c, d];
  }

  /** A prefix of the slices is no longer than all of them. */
  lemma {:induction false} TotalLengthPrefix<T>(slices: seq<seq<T>>, k: nat)
    requires k <= |slices|
    ensures TotalLength(slices[..k]) <= TotalLength(slices)
    decreases |slices| - k
  {
    if k < |slices| {
      assert slices[..k + 1][..k] == slices[..k];
      TotalLengthPrefix(slices, k + 1);
    } else {
      assert slices[..k] == slices;
    }
  }

  /** copy(dst[i:], s) where the destination has room for all of `s`: the
      number of elements copied, and the prefix up to them. */
  method CopyAt<T>(dst: array<T>, i: nat, s: seq<T>) returns (copied: nat)
    requires i + |s| <= dst.Length
    modifies dst
    ensures copied == |s|
    ensures dst[..i + copied] == old(dst[..i]) + s
  {
    for j := 0 to |s|
      invariant dst[..i + j] == old(dst[..i]) + s[..j]
    {
      dst[i + j] := s[j];
      assert dst[..i + j + 1] == dst[..i + j] + [s[j]];
      assert s[..j + 1] == s[..j] + [s[j]];
    }
    assert s[..|s|] == s;
    return |s|;
  }

  /** concat: allocates the total length, then copies each slice at the
      running offset. */
  method Concat<T(0)>(slices: seq<seq<T>>) returns (r: seq<T>)
    ensures r == Flatten(slices)
  {
    var totalLen := 0;
    for k := 0 to |slices|
      invariant totalLen == TotalLength(slices[..k])
    {
      assert slices[..k + 1][..k] == slices[..k];
      totalLen := totalLen + |slices[k]|;
    }
    assert slices[..|slices|] == slices;
    var tmp := new T[totalLen];
    var i := 0;
    for k := 0 to |slices|
      invariant i == TotalLength(slices[..k]) <= totalLen
      invariant tmp[..i] == Flatten(slices[..k])
    {
      var s := slices[k];
      assert slices[..k + 1][..k] == slices[..k];
      TotalLengthPrefix(slices, k + 1);
      var copied := CopyAt(tmp, i, s);
      i := i + copied;
    }
    r := tmp[..];
  }
}
