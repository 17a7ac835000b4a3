/** Content-type dispatch and the download records of the newer generation
    (internal/parsers/get-parser.go), plus the two older dispatchers. */
module Dispatch {
  import opened Wrappers
  import opened Strings
  import opened Urls

  /** The parser variants a content type can select. `Image` exists only in
      the oldest generation. */
  datatype ParserKind = Html | Css | JavaScript | Passthrough | Image

  /** A unit of crawl work: where to fetch, whether failure is fatal, where to
      store, and how many page hops it is from the root. */
  datatype DownloadArg = DownloadArg(url: Url, isRequired: bool, fileName: string, depth: nat)

  /** A fetched body waiting to be parsed. */
  datatype ParseArg = ParseArg(downloadArg: DownloadArg, body: string, contentType: string)

  /** GetParser: the first matching case wins; the media cases are prefix tests. */
  function GetParser(contentType: string): Option<ParserKind>
  {
    if Contains(contentType, "text/html") then Some(Html)
    else if Contains(contentType, "text/css") then Some(Css)
    else if Contains(contentType, "javascript") then Some(JavaScript)
    else if HasPrefix(contentType, "image/") then Some(Passthrough)
    else if HasPrefix(contentType, "font/") then Some(Passthrough)
    else if HasPrefix(contentType, "video/") then Some(Passthrough)
    else None
  }

  /** NewDownloadArg: re-parses the link; a failure on a required task ends the process. */
  function NewDownloadArg(link: string, required: bool, fileName: string, depth: nat): (r: Result<DownloadArg>)
    ensures r.Ok? <==> Parse(link).Some?
    ensures r.Ok? ==> r.value == DownloadArg(Parse(link).value, required, fileName, depth)
    ensures r.Fatal? <==> Parse(link).None? && required
    ensures r.Err? <==> Parse(link).None? && !required
  {
    match Parse(link)
    case None =>
      if required then Fatal("Url \"" + link + "\" is not a valid URL")
      else Err("invalid URL")
    case Some(u) => Ok(DownloadArg(u, required, fileName, depth))
  }

  /** NewParseArg: pairs a task with its fetched body and content type. */
  function NewParseArg(downloadArg: DownloadArg, body: string, contentType: string): (p: ParseArg)
    ensures p.downloadArg == downloadArg && p.body == body && p.contentType == contentType
  {
    ParseArg(downloadArg, body, contentType)
  }

  /** A content type mentioning text/html selects the HTML parser whatever else it holds. */
  lemma HtmlWins(contentType: string)
    requires Contains(contentType, "text/html")
    ensures GetParser(contentType) == Some(Html)
  {
  }

  /** The CSS parser is selected exactly when text/css occurs and text/html does not. */
  lemma CssIff(contentType: string)
    ensures GetParser(contentType) == Some(Css)
        <==> Contains(contentType, "text/css") && !Contains(contentType, "text/html")
  {
  }

  /** The JavaScript parser is selected exactly when "javascript" occurs and no earlier case matched. */
  lemma JavaScriptIff(contentType: string)
    ensures GetParser(contentType) == Some(JavaScript)
        <==> Contains(contentType, "javascript")
             && !Contains(contentType, "text/html") && !Contains(contentType, "text/css")
  {
  }

  predicate NoTextMatch(contentType: string)
  {
    !Contains(contentType, "text/html") && !Contains(contentType, "text/css")
    && !Contains(contentType, "javascript")
  }

  /** Passthrough is selected exactly for the media prefixes, when no text case matched. */
  lemma PassthroughIff(contentType: string)
    ensures GetParser(contentType) == Some(Passthrough)
        <==> NoTextMatch(contentType)
             && (HasPrefix(contentType, "image/") || HasPrefix(contentType, "font/")
                 || HasPrefix(contentType, "video/"))
  {
  }

  /** Every other content type selects no parser. */
  lemma NoneIff(contentType: string)
    ensures GetParser(contentType) == None
        <==> NoTextMatch(contentType)
             && !HasPrefix(contentType, "image/") && !HasPrefix(contentType, "font/")
             && !HasPrefix(contentType, "video/")
  {
  }

  /** The prefix tests are not substring tests: a media type behind a parameter
      or another word selects nothing. */
  lemma MediaTypeMustLead(contentType: string)
    requires NoTextMatch("x" + contentType)
    ensures GetParser("x" + contentType) == None
  {
    var s := "x" + contentType;
    assert s[0] == 'x';
    assert !HasPrefix(s, "image/") by { assert "image/"[0] == 'i'; }
    assert !HasPrefix(s, "font/") by { assert "font/"[0] == 'f'; }
    assert !HasPrefix(s, "video/") by { assert "video/"[0] == 'v'; }
  }
}
