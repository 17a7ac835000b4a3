/** The stateless resolver of the older tree (src/parser/path.go): every link
    is mapped to `prefix/<base name>`, without any memory of earlier links. */
module LegacyPaths {
  import opened Urls
  import opened FilePaths

  datatype LegacyPath = LegacyPath(success: bool, url: Url, localPath: string)

  /** Fills a missing scheme and host from the page location and turns the
      site root into its index page. */
  function FromLocation(u: Url, location: Url): (r: Url)
    ensures r.scheme == (if u.scheme == "" then location.scheme else u.scheme)
    ensures r.host == (if u.host == "" then location.host else u.host)
    ensures r.path == (if u.path == "/" then "/index.html" else u.path)
    ensures r.rawQuery == u.rawQuery && r.fragment == u.fragment
  {
    var withScheme := if u.scheme == "" then u.(scheme := location.scheme) else u;
    var withHost := if withScheme.host == "" then withScheme.(host := location.host) else withScheme;
    if withHost.path == "/" then withHost.(path := "/index.html") else withHost
  }

  /** The local name: the base name of the path under the prefix, with
      ".html" added when the result has no extension. */
  function LocalName(prefix: string, path: string): (name: string)
    ensures Ext(name) != ""
  {
    var fileName := Join(prefix, Base(path));
    if Ext(fileName) == "" then
      HtmlExtension(fileName);
      fileName + ".html"
    else fileName
  }

  /** HandlePath of src/parser/path.go. */
  function HandlePath(location: Url, attr: string, localPrefix: string): (p: LegacyPath)
    ensures p.success <==> Parse(attr).Some?
    ensures p.success ==> Ext(p.localPath) != ""
  {
    match Parse(attr)
    case None => LegacyPath(false, EmptyUrl, "")
    case Some(u) =>
      var full := FromLocation(u, location);
      LegacyPath(true, full, LocalName(localPrefix, full.path))
  }

  /** A resolved link keeps its own scheme and host and borrows the missing
      ones from the page location; query and fragment are kept. */
  lemma FillsFromLocation(location: Url, attr: string, localPrefix: string)
    requires Parse(attr).Some?
    ensures var u := Parse(attr).value;
            var p := HandlePath(location, attr, localPrefix);
            && p.url.scheme == (if u.scheme == "" then location.scheme else u.scheme)
            && p.url.host == (if u.host == "" then location.host else u.host)
            && p.url.rawQuery == u.rawQuery && p.url.fragment == u.fragment
  {
  }

  /** The site root is stored as `index.html` under the prefix. */
  lemma RootIsIndexPage(location: Url, attr: string, localPrefix: string)
    requires Parse(attr).Some? && Parse(attr).value.path == "/"
    ensures HandlePath(location, attr, localPrefix).url.path == "/index.html"
    ensures HandlePath(location, attr, localPrefix).localPath == Join(localPrefix, "index.html")
  {
    IndexName(localPrefix);
  }

  /** The local name of the root path "/index.html". */
  lemma IndexName(localPrefix: string)
    ensures LocalName(localPrefix, "/index.html") == Join(localPrefix, "index.html")
  {
    var index := "index.html";
    assert "/index.html" == "" + "/" + index;
    assert forall j :: 0 <= j < |index| ==> index[j] != '/';
    BaseOfChild("", index);
    assert index == "index" + ".html";
    HtmlExtension("index");
    StripAppend("", index);
    JoinKeepsExt(localPrefix, index);
  }

  /** No memory: two links in different directories with the same file name
      get the same local path, so the later download overwrites the earlier. */
  lemma {:induction false} SameNameCollides(location: Url, a: string, b: string, localPrefix: string,
                                            dirA: string, dirB: string, name: string)
    requires Parse(a).Some? && Parse(a).value.path == dirA + "/" + name
    requires Parse(b).Some? && Parse(b).value.path == dirB + "/" + name
    requires name != [] && forall j :: 0 <= j < |name| ==> name[j] != '/'
    ensures HandlePath(location, a, localPrefix).localPath == HandlePath(location, b, localPrefix).localPath
  {
    assert (dirA + "/" + name)[|dirA + "/" + name| - 1] == name[|name| - 1];
    assert (dirB + "/" + name)[|dirB + "/" + name| - 1] == name[|name| - 1];
    BaseOfChild(dirA, name);
    BaseOfChild(dirB, name);
  }
}
