/** The dispatchers of the two older generations: src/parser/decider.go (no
    video case) and src/parsers/decider.go (HTML, CSS and images only). Their
    NewDownloadArg is the same code as the newer one and is modelled once,
    by Dispatch.NewDownloadArg. */
module LegacyDispatch {
  import opened Wrappers
  import opened Strings
  import opened Dispatch

  /** src/parser/decider.go GetParser. */
  function GetParserV1(contentType: string): Option<ParserKind>
  {
    if Contains(contentType, "text/html") then Some(Html)
    else if Contains(contentType, "text/css") then Some(Css)
    else if Contains(contentType, "javascript") then Some(JavaScript)
    else if HasPrefix(contentType, "image/") then Some(Passthrough)
    else if HasPrefix(contentType, "font/") then Some(Passthrough)
    else None
  }

  /** src/parsers/decider.go GetParser. */
  function GetParserV0(contentType: string): Option<ParserKind>
  {
    if Contains(contentType, "text/html") then Some(Html)
    else if Contains(contentType, "text/css") then Some(Css)
    else if HasPrefix(contentType, "image/") then Some(Image)
    else None
  }

  /** The middle generation selects exactly what the newest one selects,
      except for video, which it does not know. */
  lemma V1AgreesWithNewest(contentType: string)
    ensures GetParserV1(contentType).Some? ==> GetParser(contentType) == GetParserV1(contentType)
    ensures GetParserV1(contentType) == None
        <==> GetParser(contentType) == None
             || (NoTextMatch(contentType) && HasPrefix(contentType, "video/"))
  {
    if HasPrefix(contentType, "video/") {
      assert !HasPrefix(contentType, "image/") by { assert "video/"[0] != "image/"[0]; }
      assert !HasPrefix(contentType, "font/") by { assert "video/"[0] != "font/"[0]; }
    }
  }

  /** text/html wins in the middle generation too, and text/css needs its absence. */
  lemma V1TextCases(contentType: string)
    ensures Contains(contentType, "text/html") ==> GetParserV1(contentType) == Some(Html)
    ensures GetParserV1(contentType) == Some(Css)
        <==> Contains(contentType, "text/css") && !Contains(contentType, "text/html")
    ensures GetParserV1(contentType) == Some(JavaScript)
        <==> Contains(contentType, "javascript")
             && !Contains(contentType, "text/html") && !Contains(contentType, "text/css")
  {
  }

  /** The oldest generation ignores scripts and fonts altogether. */
  lemma V0Cases(contentType: string)
    ensures Contains(contentType, "text/html") ==> GetParserV0(contentType) == Some(Html)
    ensures GetParserV0(contentType) == Some(Css)
        <==> Contains(contentType, "text/css") && !Contains(contentType, "text/html")
    ensures GetParserV0(contentType) == Some(Image)
        <==> HasPrefix(contentType, "image/")
             && !Contains(contentType, "text/html") && !Contains(contentType, "text/css")
    ensures GetParserV0(contentType) == None
        <==> !Contains(contentType, "text/html") && !Contains(contentType, "text/css")
             && !HasPrefix(contentType, "image/")
  {
  }

  /** What the oldest generation sends to its image parser, the newer ones pass
      through, unless the type also mentions javascript. */
  lemma V0ImageIsLaterPassthrough(contentType: string)
    requires GetParserV0(contentType) == Some(Image)
    ensures !Contains(contentType, "javascript") ==> GetParserV1(contentType) == Some(Passthrough)
    ensures Contains(contentType, "javascript") ==> GetParserV1(contentType) == Some(JavaScript)
  {
  }
}
