/** The stylesheet rewriter of internal/parsers/css.go. The lexer is given as
    its token sequence; the end of the sequence is the lexer's end of input. */
module Css {
  import opened Wrappers
  import opened Urls
  import opened Paths
  import opened Dispatch

  /** A lexer token: an unquoted url-token (CSS Syntax Module Level 3, section
      4.3.6) with its text such as `url(a.png)`, any other token with its text,
      or the lexer's error token, which marks either the end of input or a
      lexing error. */
  datatype Token = UrlToken(text: string) | OtherToken(text: string) | ErrorToken(atEof: bool)

  /** Every url-token is at least as long as `url()`, which the slice that
      takes its inner text needs. */
  predicate WellFormed(tokens: seq<Token>)
  {
    forall i :: 0 <= i < |tokens| ==> tokens[i].UrlToken? ==> |tokens[i].text| >= 5
  }

  /** The link inside a url-token: `url(` and `)` removed. */
  function LinkOf(text: string): string
    requires |text| >= 5
  {
    text[4..|text| - 1]
  }

  /** The rewritten form of a resolved url-token. */
  function Rewritten(relativeUrl: string): string
  {
    "url(\"../" + relativeUrl + "\")"
  }

  /** The state of the token loop: output so far, tasks so far, the resolver's
      maps, and whether an error token ended the loop. */
  datatype Run = Run(out: string, links: seq<DownloadArg>, store: Store, stopped: bool)

  /** One iteration of the token loop. */
  function Step(r: Run, t: Token, content: string, root: Url, location: Url, depth: nat): Run
    requires t.UrlToken? ==> |t.text| >= 5
  {
    if r.stopped then r
    else match t
      case ErrorToken(atEof) =>
        if atEof then r.(stopped := true) else Run(content, [], r.store, true)
      case UrlToken(text) =>
        var handled := Handle(r.store, root, LinkOf(text), location, "in-css");
        AfterUrl(r, text, handled.0, handled.1, depth)
      case OtherToken(text) => r.(out := r.out + text)
  }

  /** The loop state after a url-token whose link the resolver answered with
      `p` and left its maps as `s`: on failure the token is copied, otherwise
      rewritten. */
  function AfterUrl(r: Run, text: string, p: ProcessedPath, s: Store, depth: nat): Run
  {
    if !p.success then r.(out := r.out + text, store := s)
    else Run(r.out + Rewritten(p.relativeUrl),
             r.links + [DownloadArg(p.url, false, p.localPath, depth + 1)], s, false)
  }

  /** The loop over a prefix of the token stream. */
  function RunTokens(tokens: seq<Token>, content: string, store: Store, root: Url, location: Url, depth: nat): Run
    requires WellFormed(tokens)
    decreases |tokens|
  {
    if tokens == [] then Run("", [], store, false)
    else Step(RunTokens(tokens[..|tokens| - 1], content, store, root, location, depth),
              tokens[|tokens| - 1], content, root, location, depth)
  }

  /** The loop over one more token is one more step. */
  lemma NextToken(tokens: seq<Token>, i: nat, content: string, store: Store, root: Url, location: Url, depth: nat)
    requires WellFormed(tokens) && i < |tokens|
    ensures RunTokens(tokens[..i + 1], content, store, root, location, depth)
         == Step(RunTokens(tokens[..i], content, store, root, location, depth), tokens[i], content, root, location, depth)
  {
    assert tokens[..i + 1][..i] == tokens[..i];
  }

  predicate NoErrors(tokens: seq<Token>)
  {
    forall i :: 0 <= i < |tokens| ==> !tokens[i].ErrorToken?
  }

  /** The number of url-tokens whose link parses. */
  function ParsableUrls(tokens: seq<Token>): nat
    requires WellFormed(tokens)
    decreases |tokens|
  {
    if tokens == [] then 0
    else
      var last := tokens[|tokens| - 1];
      ParsableUrls(tokens[..|tokens| - 1])
      + (if last.UrlToken? && Parse(LinkOf(last.text)).Some? then 1 else 0)
  }

  /** The concatenated texts of tokens. */
  function Texts(tokens: seq<Token>): string
    requires NoErrors(tokens)
    decreases |tokens|
  {
    if tokens == [] then "" else Texts(tokens[..|tokens| - 1]) + tokens[|tokens| - 1].text
  }

  /** Without error tokens the loop never stops, emits one task per url-token
      whose link resolves, in token order, each one level deeper, and keeps the
      resolver consistent and growing. */
  lemma {:induction false} TasksPerResolvedUrl(tokens: seq<Token>, content: string, store: Store,
                                               root: Url, location: Url, depth: nat)
    requires WellFormed(tokens) && NoErrors(tokens) && Consistent(store)
    ensures var r := RunTokens(tokens, content, store, root, location, depth);
            && !r.stopped
            && |r.links| == ParsableUrls(tokens)
            && (forall l :: l in r.links ==> l.depth == depth + 1 && !l.isRequired)
            && Consistent(r.store) && Grows(store, r.store)
    decreases |tokens|
  {
    if tokens != [] {
      var init := tokens[..|tokens| - 1];
      TasksPerResolvedUrl(init, content, store, root, location, depth);
      var r := RunTokens(init, content, store, root, location, depth);
      var last := tokens[|tokens| - 1];
      if last.UrlToken? {
        var link := LinkOf(last.text);
        HandleKeepsConsistent(r.store, root, link, location, "in-css");
        HandleGrows(r.store, root, link, location, "in-css");
        if Parse(link).Some? {
          ParsableSucceeds(r.store, root, link, location, "in-css");
        }
      }
    }
  }

  /** Tokens other than url-tokens are copied through unchanged. */
  lemma {:induction false} OtherTokensCopied(tokens: seq<Token>, content: string, store: Store,
                                             root: Url, location: Url, depth: nat)
    requires WellFormed(tokens) && NoErrors(tokens)
    requires forall i :: 0 <= i < |tokens| ==> tokens[i].OtherToken?
    ensures RunTokens(tokens, content, store, root, location, depth) == Run(Texts(tokens), [], store, false)
    decreases |tokens|
  {
    if tokens != [] {
      OtherTokensCopied(tokens[..|tokens| - 1], content, store, root, location, depth);
    }
  }

  /** Once an error token has stopped the loop, later tokens change nothing. */
  lemma {:induction false} StoppedStaysStopped(tokens: seq<Token>, i: nat, content: string, store: Store,
                                               root: Url, location: Url, depth: nat)
    requires WellFormed(tokens) && i <= |tokens|
    requires RunTokens(tokens[..i], content, store, root, location, depth).stopped
    ensures RunTokens(tokens, content, store, root, location, depth)
         == RunTokens(tokens[..i], content, store, root, location, depth)
    decreases |tokens| - i
  {
    if i < |tokens| {
      var next := tokens[..i + 1];
      assert next[..i] == tokens[..i];
      StoppedStaysStopped(tokens, i + 1, content, store, root, location, depth);
    } else {
      assert tokens[..i] == tokens;
    }
  }

  /** A lexing error other than end of input discards everything: the original
      content is returned with no task. */
  lemma LexErrorReturnsOriginal(tokens: seq<Token>, i: nat, content: string, store: Store,
                                root: Url, location: Url, depth: nat)
    requires WellFormed(tokens) && i < |tokens|
    requires NoErrors(tokens[..i]) && tokens[i] == ErrorToken(false)
    ensures RunTokens(tokens, content, store, root, location, depth).out == content
    ensures RunTokens(tokens, content, store, root, location, depth).links == []
  {
    var upto := tokens[..i + 1];
    assert upto[..i] == tokens[..i];
    TasksPerResolvedUrlStops(tokens[..i], content, store, root, location, depth);
    StoppedStaysStopped(tokens, i + 1, content, store, root, location, depth);
  }

  /** End of input returns the output and tasks accumulated before it. */
  lemma EndOfInputKeepsOutput(tokens: seq<Token>, i: nat, content: string, store: Store,
                              root: Url, location: Url, depth: nat)
    requires WellFormed(tokens) && i < |tokens|
    requires NoErrors(tokens[..i]) && tokens[i] == ErrorToken(true)
    ensures var before := RunTokens(tokens[..i], content, store, root, location, depth);
            var r := RunTokens(tokens, content, store, root, location, depth);
            r.out == before.out && r.links == before.links && r.store == before.store
  {
    var upto := tokens[..i + 1];
    assert upto[..i] == tokens[..i];
    TasksPerResolvedUrlStops(tokens[..i], content, store, root, location, depth);
    StoppedStaysStopped(tokens, i + 1, content, store, root, location, depth);
  }

  /** Without error tokens the loop is still running. */
  lemma {:induction false} TasksPerResolvedUrlStops(tokens: seq<Token>, content: string, store: Store,
                                                    root: Url, location: Url, depth: nat)
    requires WellFormed(tokens) && NoErrors(tokens)
    ensures !RunTokens(tokens, content, store, root, location, depth).stopped
    decreases |tokens|
  {
    if tokens != [] {
      TasksPerResolvedUrlStops(tokens[..|tokens| - 1], content, store, root, location, depth);
    }
  }

  /** Appending a clean token to a clean stream keeps it clean. */
  lemma SnocClean(tokens: seq<Token>, t: Token)
    requires WellFormed(tokens) && NoErrors(tokens)
    requires !t.ErrorToken? && (t.UrlToken? ==> |t.text| >= 5)
    ensures WellFormed(tokens + [t]) && NoErrors(tokens + [t])
  {
  }

  /** The head and the tail of a clean stream are clean. */
  lemma TailClean(tokens: seq<Token>)
    requires WellFormed(tokens) && NoErrors(tokens) && tokens != []
    ensures WellFormed(tokens[1..]) && NoErrors(tokens[1..])
    ensures !tokens[0].ErrorToken? && (tokens[0].UrlToken? ==> |tokens[0].text| >= 5)
  {
  }

  lemma ConcatEmpty(s: string, l: seq<DownloadArg>)
    ensures s + "" == "" + s && l + [] == [] + l
  {
  }

  lemma ConcatRegroup(a: string, b: string, c: string, x: seq<DownloadArg>, y: seq<DownloadArg>, z: seq<DownloadArg>)
    ensures a + (b + c) == (a + b) + c && x + (y + z) == (x + y) + z
  {
  }

  /** What one token of an error-free stream contributes: its output text, its
      tasks, and the resolver's maps after it. */
  datatype Piece = Piece(out: string, links: seq<DownloadArg>, store: Store)

  /** The contribution of one url-token or other token, given the maps the
      earlier tokens left: a resolved url-token becomes `url("../" + reference)`
      and one task one level deeper, saved under the local path; an unresolved
      url-token and any other token are copied as they are, with no task. */
  function TokenPiece(t: Token, store: Store, root: Url, location: Url, depth: nat): Piece
    requires !t.ErrorToken? && (t.UrlToken? ==> |t.text| >= 5)
  {
    match t
    case OtherToken(text) => Piece(text, [], store)
    case UrlToken(text) =>
      var h := Handle(store, root, LinkOf(text), location, "in-css");
      if h.0.success then Piece(Rewritten(h.0.relativeUrl), [DownloadArg(h.0.url, false, h.0.localPath, depth + 1)], h.1)
      else Piece(text, [], h.1)
  }

  /** The rendering of an error-free stream read from the front: the first
      token's piece, then the rest rendered with the maps the first one left,
      outputs and tasks concatenated in token order. */
  function Render(tokens: seq<Token>, store: Store, root: Url, location: Url, depth: nat): Piece
    requires WellFormed(tokens) && NoErrors(tokens)
    decreases |tokens|
  {
    if tokens == [] then Piece("", [], store)
    else
      var head := TokenPiece(tokens[0], store, root, location, depth);
      var rest := Render(tokens[1..], head.store, root, location, depth);
      Piece(head.out + rest.out, head.links + rest.links, rest.store)
  }

  /** Rendering one more token appends that token's piece, taken with the maps
      the earlier tokens left. */
  lemma {:induction false} RenderSnoc(tokens: seq<Token>, t: Token, store: Store, root: Url, location: Url, depth: nat)
    requires WellFormed(tokens) && NoErrors(tokens)
    requires !t.ErrorToken? && (t.UrlToken? ==> |t.text| >= 5)
    ensures WellFormed(tokens + [t]) && NoErrors(tokens + [t])
    ensures var r := Render(tokens, store, root, location, depth);
            var p := TokenPiece(t, r.store, root, location, depth);
            Render(tokens + [t], store, root, location, depth) == Piece(r.out + p.out, r.links + p.links, p.store)
    decreases |tokens|
  {
    SnocClean(tokens, t);
    if tokens == [] {
      var p := TokenPiece(t, store, root, location, depth);
      assert [t][1..] == [];
      ConcatEmpty(p.out, p.links);
    } else {
      TailClean(tokens);
      var head := TokenPiece(tokens[0], store, root, location, depth);
      assert (tokens + [t])[1..] == tokens[1..] + [t];
      RenderSnoc(tokens[1..], t, head.store, root, location, depth);
      var rest := Render(tokens[1..], head.store, root, location, depth);
      var p := TokenPiece(t, rest.store, root, location, depth);
      ConcatRegroup(head.out, rest.out, p.out, head.links, rest.links, p.links);
    }
  }

  /** On an error-free stream the token loop computes exactly the front-to-back
      rendering: its output is every token's piece in order, its tasks are the
      tasks of the resolved url-tokens in token order, each with the URL and
      local path the resolver gave that token, and its maps are the maps after
      the last token. */
  lemma {:induction false} LoopRenders(tokens: seq<Token>, content: string, store: Store,
                                       root: Url, location: Url, depth: nat)
    requires WellFormed(tokens) && NoErrors(tokens)
    ensures var p := Render(tokens, store, root, location, depth);
            RunTokens(tokens, content, store, root, location, depth) == Run(p.out, p.links, p.store, false)
    decreases |tokens|
  {
    if tokens != [] {
      var init := tokens[..|tokens| - 1];
      var last := tokens[|tokens| - 1];
      assert init + [last] == tokens;
      LoopRenders(init, content, store, root, location, depth);
      RenderSnoc(init, last, store, root, location, depth);
      var r := Render(init, store, root, location, depth);
      if last.UrlToken? {
        var h := Handle(r.store, root, LinkOf(last.text), location, "in-css");
        if !h.0.success {
          assert r.links + [] == r.links;
        }
      } else {
        assert r.links + [] == r.links;
      }
    }
  }

  class CssParser {
    const pathProcessor: PathProcessor
    var location: Url

    constructor (pathProcessor: PathProcessor)
      ensures this.pathProcessor == pathProcessor
    {
      this.pathProcessor := pathProcessor;
      location := EmptyUrl;
    }

    /** The body of the token loop for one url-token. */
    method RewriteUrl(text: string, depth: nat, out: string, links: seq<DownloadArg>)
      returns (out': string, links': seq<DownloadArg>)
      requires |text| >= 5 && pathProcessor.Valid()
      modifies pathProcessor
      ensures pathProcessor.Valid()
      ensures var handled := Handle(old(pathProcessor.Maps()), pathProcessor.location, LinkOf(text), location, "in-css");
              Run(out', links', pathProcessor.Maps(), false)
              == AfterUrl(Run(out, links, old(pathProcessor.Maps()), false), text, handled.0, handled.1, depth)
    {
      var link := text[4..|text| - 1];
      var p := pathProcessor.HandlePath(link, location, "in-css");
      out', links' := out, links;
      if !p.success {
        out' := out + text;
      } else {
        out' := out + Rewritten(p.relativeUrl);
        links' := links + [DownloadArg(p.url, false, p.localPath, depth + 1)];
      }
    }

    /** Process: rewrite every resolvable url-token to the local copy one
        directory up and emit a task for it; copy every other token. Never fails. */
    method Process(content: string, tokens: seq<Token>, arg: DownloadArg)
      returns (result: string, links: seq<DownloadArg>)
      requires WellFormed(tokens) && pathProcessor.Valid()
      modifies this, pathProcessor
      ensures pathProcessor.Valid()
      ensures var r := RunTokens(tokens, content, old(pathProcessor.Maps()), pathProcessor.location, arg.url, arg.depth);
              result == r.out && links == r.links && pathProcessor.Maps() == r.store
    {
      location := arg.url;
      var out := "";
      links := [];
      var i := 0;
      while i < |tokens|
        invariant 0 <= i <= |tokens|
        invariant location == arg.url && pathProcessor.Valid()
        invariant RunTokens(tokens[..i], content, old(pathProcessor.Maps()), pathProcessor.location, arg.url, arg.depth)
               == Run(out, links, pathProcessor.Maps(), false)
      {
        NextToken(tokens, i, content, old(pathProcessor.Maps()), pathProcessor.location, arg.url, arg.depth);
        match tokens[i] {
        case ErrorToken(atEof) =>
          StoppedStaysStopped(tokens, i + 1, content, old(pathProcessor.Maps()), pathProcessor.location, arg.url, arg.depth);
          if atEof {
            return out, links;
          }
          return content, [];
        case UrlToken(text) =>
          out, links := RewriteUrl(text, arg.depth, out, links);
        case OtherToken(text) =>
          out := out + text;
        }
        i := i + 1;
      }
      assert tokens[..i] == tokens;
      result := out;
    }
  }
}
