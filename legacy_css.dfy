/** The stylesheet rewriter of the older tree (src/parser/css.go). It uses the
    stateless resolver and writes the local path itself into the output. */
module LegacyCss {
  import opened Urls
  import opened Dispatch
  import opened Css
  import LegacyPaths

  /** The state of the token loop; no resolver state is threaded through. */
  datatype LegacyRun = LegacyRun(out: string, links: seq<DownloadArg>, stopped: bool)

  /** One iteration of the token loop. */
  function LegacyStep(r: LegacyRun, t: Token, content: string, location: Url, depth: nat): LegacyRun
    requires t.UrlToken? ==> |t.text| >= 5
  {
    if r.stopped then r
    else match t
      case ErrorToken(atEof) =>
        if atEof then r.(stopped := true) else LegacyRun(content, [], true)
      case UrlToken(text) =>
        LegacyAfterUrl(r, text, LegacyPaths.HandlePath(location, LinkOf(text), "in-css"), depth)
      case OtherToken(text) => r.(out := r.out + text)
  }

  /** The loop state after a url-token the resolver answered with `p`. */
  function LegacyAfterUrl(r: LegacyRun, text: string, p: LegacyPaths.LegacyPath, depth: nat): LegacyRun
  {
    if !p.success then r.(out := r.out + text)
    else LegacyRun(r.out + Rewritten(p.localPath),
                   r.links + [DownloadArg(p.url, false, p.localPath, depth + 1)], false)
  }

  function LegacyRunTokens(tokens: seq<Token>, content: string, location: Url, depth: nat): LegacyRun
    requires WellFormed(tokens)
    decreases |tokens|
  {
    if tokens == [] then LegacyRun("", [], false)
    else LegacyStep(LegacyRunTokens(tokens[..|tokens| - 1], content, location, depth),
                    tokens[|tokens| - 1], content, location, depth)
  }

  lemma LegacyNextToken(tokens: seq<Token>, i: nat, content: string, location: Url, depth: nat)
    requires WellFormed(tokens) && i < |tokens|
    ensures LegacyRunTokens(tokens[..i + 1], content, location, depth)
         == LegacyStep(LegacyRunTokens(tokens[..i], content, location, depth), tokens[i], content, location, depth)
  {
    assert tokens[..i + 1][..i] == tokens[..i];
  }

  lemma {:induction false} LegacyStoppedStaysStopped(tokens: seq<Token>, i: nat, content: string, location: Url, depth: nat)
    requires WellFormed(tokens) && i <= |tokens|
    requires LegacyRunTokens(tokens[..i], content, location, depth).stopped
    ensures LegacyRunTokens(tokens, content, location, depth) == LegacyRunTokens(tokens[..i], content, location, depth)
    decreases |tokens| - i
  {
    if i < |tokens| {
      LegacyNextToken(tokens, i, content, location, depth);
      LegacyStoppedStaysStopped(tokens, i + 1, content, location, depth);
    } else {
      assert tokens[..i] == tokens;
    }
  }

  /** Without error tokens: one task per url-token whose link parses, each one
      level deeper and saved under the path written into the output. */
  lemma {:induction false} LegacyTasksPerResolvedUrl(tokens: seq<Token>, content: string, location: Url, depth: nat)
    requires WellFormed(tokens) && NoErrors(tokens)
    ensures var r := LegacyRunTokens(tokens, content, location, depth);
            && !r.stopped
            && |r.links| == ParsableUrls(tokens)
            && (forall l :: l in r.links ==> l.depth == depth + 1 && !l.isRequired)
    decreases |tokens|
  {
    if tokens != [] {
      LegacyTasksPerResolvedUrl(tokens[..|tokens| - 1], content, location, depth);
    }
  }

  /** A lexing error other than end of input returns the original content and
      no task. */
  lemma LegacyLexErrorReturnsOriginal(tokens: seq<Token>, i: nat, content: string, location: Url, depth: nat)
    requires WellFormed(tokens) && i < |tokens|
    requires NoErrors(tokens[..i]) && tokens[i] == ErrorToken(false)
    ensures LegacyRunTokens(tokens, content, location, depth) == LegacyRun(content, [], true)
  {
    LegacyTasksPerResolvedUrl(tokens[..i], content, location, depth);
    LegacyNextToken(tokens, i, content, location, depth);
    LegacyStoppedStaysStopped(tokens, i + 1, content, location, depth);
  }

  /** Tokens other than url-tokens are copied through unchanged. */
  lemma {:induction false} LegacyOtherTokensCopied(tokens: seq<Token>, content: string, location: Url, depth: nat)
    requires WellFormed(tokens) && NoErrors(tokens)
    requires forall i :: 0 <= i < |tokens| ==> tokens[i].OtherToken?
    ensures LegacyRunTokens(tokens, content, location, depth) == LegacyRun(Texts(tokens), [], false)
    decreases |tokens|
  {
    if tokens != [] {
      LegacyOtherTokensCopied(tokens[..|tokens| - 1], content, location, depth);
    }
  }

  /** What one token of an error-free stream contributes: its output text and
      its tasks. */
  datatype LegacyPiece = LegacyPiece(out: string, links: seq<DownloadArg>)

  /** The contribution of one url-token or other token: a url-token whose link
      the resolver accepts becomes `url("../" + local path)` and one task one
      level deeper saved under that path; any other token, and a url-token the
      resolver rejects, is copied as it is, with no task. */
  function LegacyTokenPiece(t: Token, location: Url, depth: nat): LegacyPiece
    requires !t.ErrorToken? && (t.UrlToken? ==> |t.text| >= 5)
  {
    match t
    case OtherToken(text) => LegacyPiece(text, [])
    case UrlToken(text) =>
      var p := LegacyPaths.HandlePath(location, LinkOf(text), "in-css");
      if p.success then LegacyPiece(Rewritten(p.localPath), [DownloadArg(p.url, false, p.localPath, depth + 1)])
      else LegacyPiece(text, [])
  }

  /** The rendering of an error-free stream read from the front: the pieces of
      its tokens, outputs and tasks concatenated in token order. */
  function LegacyRender(tokens: seq<Token>, location: Url, depth: nat): LegacyPiece
    requires WellFormed(tokens) && NoErrors(tokens)
    decreases |tokens|
  {
    if tokens == [] then LegacyPiece("", [])
    else
      var head := LegacyTokenPiece(tokens[0], location, depth);
      var rest := LegacyRender(tokens[1..], location, depth);
      LegacyPiece(head.out + rest.out, head.links + rest.links)
  }

  /** Rendering one more token appends that token's piece. */
  lemma {:induction false} LegacyRenderSnoc(tokens: seq<Token>, t: Token, location: Url, depth: nat)
    requires WellFormed(tokens) && NoErrors(tokens)
    requires !t.ErrorToken? && (t.UrlToken? ==> |t.text| >= 5)
    ensures WellFormed(tokens + [t]) && NoErrors(tokens + [t])
    ensures var r := LegacyRender(tokens, location, depth);
            var p := LegacyTokenPiece(t, location, depth);
            LegacyRender(tokens + [t], location, depth) == LegacyPiece(r.out + p.out, r.links + p.links)
    decreases |tokens|
  {
    SnocClean(tokens, t);
    if tokens == [] {
      var p := LegacyTokenPiece(t, location, depth);
      assert [t][1..] == [];
      ConcatEmpty(p.out, p.links);
    } else {
      TailClean(tokens);
      var head := LegacyTokenPiece(tokens[0], location, depth);
      assert (tokens + [t])[1..] == tokens[1..] + [t];
      LegacyRenderSnoc(tokens[1..], t, location, depth);
      var rest := LegacyRender(tokens[1..], location, depth);
      var p := LegacyTokenPiece(t, location, depth);
      ConcatRegroup(head.out, rest.out, p.out, head.links, rest.links, p.links);
    }
  }

  /** On an error-free stream the token loop computes exactly the front-to-back
      rendering: every token's piece in order, the tasks being those of the
      accepted url-tokens in token order with the URL and local path the
      resolver gave each. */
  lemma {:induction false} LegacyLoopRenders(tokens: seq<Token>, content: string, location: Url, depth: nat)
    requires WellFormed(tokens) && NoErrors(tokens)
    ensures var p := LegacyRender(tokens, location, depth);
            LegacyRunTokens(tokens, content, location, depth) == LegacyRun(p.out, p.links, false)
    decreases |tokens|
  {
    if tokens != [] {
      var init := tokens[..|tokens| - 1];
      var last := tokens[|tokens| - 1];
      assert init + [last] == tokens;
      LegacyLoopRenders(init, content, location, depth);
      LegacyRenderSnoc(init, last, location, depth);
      var r := LegacyRender(init, location, depth);
      assert r.links + [] == r.links;
    }
  }

  class LegacyCssParser {
    var location: Url

    constructor ()
    {
      location := EmptyUrl;
    }

    /** The url-token case: resolve the link against the page's location and
        either copy the token or rewrite it and emit a task. */
    method RewriteUrl(text: string, depth: nat, out: string, links: seq<DownloadArg>)
      returns (out': string, links': seq<DownloadArg>)
      requires |text| >= 5
      ensures LegacyRun(out', links', false)
           == LegacyAfterUrl(LegacyRun(out, links, false), text,
                             LegacyPaths.HandlePath(location, LinkOf(text), "in-css"), depth)
    {
      var link := text[4..|text| - 1];
      var p := LegacyPaths.HandlePath(location, link, "in-css");
      out', links' := out, links;
      if !p.success {
        out' := out + text;
      } else {
        out' := out + Rewritten(p.localPath);
        links' := links + [DownloadArg(p.url, false, p.localPath, depth + 1)];
      }
    }

    method Process(content: string, tokens: seq<Token>, arg: DownloadArg)
      returns (result: string, links: seq<DownloadArg>)
      requires WellFormed(tokens)
      modifies this
      ensures location == arg.url
      ensures var r := LegacyRunTokens(tokens, content, arg.url, arg.depth);
              result == r.out && links == r.links
    {
      location := arg.url;
      var out := "";
      links := [];
      var i := 0;
      while i < |tokens|
        invariant 0 <= i <= |tokens| && location == arg.url
        invariant LegacyRunTokens(tokens[..i], content, arg.url, arg.depth) == LegacyRun(out, links, false)
      {
        LegacyNextToken(tokens, i, content, arg.url, arg.depth);
        match tokens[i] {
        case ErrorToken(atEof) =>
          LegacyStoppedStaysStopped(tokens, i + 1, content, arg.url, arg.depth);
          if atEof {
            return out, links;
          }
          return content, [];
        case UrlToken(text) =>
          out, links := RewriteUrl(text, arg.depth, out, links);
        case OtherToken(text) =>
          out := out + text;
        }
        i := i + 1;
      }
      assert tokens[..i] == tokens;
      result := out;
    }
  }
}
