/** The sequential bookkeeping of the crawl loop (cmd/main-loop.go): the
    `Contains` helper, the root task, the admission rule of the downloaders and
    the coordinator's lists of idle workers. Goroutines, channels and timers are
    not modelled; each received message is one step. */
module Crawl {
  import opened Wrappers
  import opened Urls
  import opened Paths
  import opened Dispatch

  /** Contains: a linear scan for `e`. */
  method Contains<T(==)>(s: seq<T>, e: T) returns (found: bool)
    ensures found <==> e in s
  {
    for i := 0 to |s|
      invariant e !in s[..i]
    {
      if s[i] == e {
        return true;
      }
      assert s[..i + 1] == s[..i] + [s[i]];
    }
    assert s[..|s|] == s;
    return false;
  }

  // ---------------------------------------------------------------------
  // The root task

  /** The root download: the required prefix is parsed and becomes the
      resolver's root; the root page is resolved against it under ".", and the
      task built from it is required and at depth 0. Every failure is fatal. */
  function RootTask(requiredPrefix: string, parseRoot: string): Result<(DownloadArg, Store)>
  {
    match Parse(requiredPrefix)
    case None => Fatal("Could not parse prefix url " + parseRoot)
    case Some(prefixUrl) =>
      var (processed, store) := Handle(EmptyStore, prefixUrl, parseRoot, prefixUrl, ".");
      if !processed.success then Fatal("Could not parse root url " + parseRoot)
      else
        match NewDownloadArg(parseRoot, true, processed.localPath, 0)
        case Ok(arg) => Ok((arg, store))
        case _ => Fatal("Could not parse root url " + parseRoot)
  }

  /** The start-up succeeds exactly when both the prefix and the root parse;
      then the root task is the parsed root, required, at depth 0, stored
      under the name the resolver recorded for it, and the resolver holds that
      one entry. Otherwise the process ends. */
  lemma RootTaskRules(requiredPrefix: string, parseRoot: string)
    ensures var r := RootTask(requiredPrefix, parseRoot);
            && (r.Ok? <==> Parse(requiredPrefix).Some? && Parse(parseRoot).Some?)
            && (!r.Ok? ==> r.Fatal?)
    ensures var r := RootTask(requiredPrefix, parseRoot);
            r.Ok? ==>
              var (arg, store) := r.value;
              var key := Key(Resolve(Parse(requiredPrefix).value, Parse(parseRoot).value));
              && arg.url == Parse(parseRoot).value && arg.isRequired && arg.depth == 0
              && store.urlToFile == map[key := arg.fileName]
              && store.fileToUrl == map[arg.fileName := key]
              && arg.fileName != ""
  {
    match Parse(requiredPrefix)
    case None =>
    case Some(prefixUrl) =>
      if Parse(parseRoot).Some? {
        ParsableSucceeds(EmptyStore, prefixUrl, parseRoot, prefixUrl, ".");
        NewUrlGetsFreshName(EmptyStore, prefixUrl, parseRoot, prefixUrl, ".");
      }
  }

  /** The root page's file is the first candidate name: nothing is taken yet. */
  lemma RootNameIsFirstCandidate(requiredPrefix: string, parseRoot: string)
    requires RootTask(requiredPrefix, parseRoot).Ok?
    ensures var prefixUrl := Parse(requiredPrefix).value;
            var resolved := Resolve(prefixUrl, Parse(parseRoot).value);
            RootTask(requiredPrefix, parseRoot).value.0.fileName
            == Candidate(".", DerivedName(resolved.path, prefixUrl.path), 0)
  {
  }

  // ---------------------------------------------------------------------
  // Admission of downloads

  /** The admission rule applied to one task: too deep is dropped first, then
      a URL already processed; otherwise the URL is recorded. */
  function AdmitStep(processed: set<string>, maxDepth: nat, task: DownloadArg): (bool, set<string>)
  {
    if task.depth > maxDepth then (false, processed)
    else if ToString(task.url) in processed then (false, processed)
    else (true, processed + {ToString(task.url)})
  }

  /** Admission of the tasks in the order the downloaders take them: the
      admitted tasks and the processed set afterwards. */
  function AdmitAll(processed: set<string>, maxDepth: nat, tasks: seq<DownloadArg>): (seq<DownloadArg>, set<string>)
    decreases |tasks|
  {
    if tasks == [] then ([], processed)
    else
      var (admitted, set1) := AdmitAll(processed, maxDepth, tasks[..|tasks| - 1]);
      var (ok, set2) := AdmitStep(set1, maxDepth, tasks[|tasks| - 1]);
      (if ok then admitted + [tasks[|tasks| - 1]] else admitted, set2)
  }

  /** A task is admitted exactly when it is within the depth limit and its URL
      is not yet processed; the set changes only then, by that URL. */
  lemma AdmitStepRules(processed: set<string>, maxDepth: nat, task: DownloadArg)
    ensures var (ok, after) := AdmitStep(processed, maxDepth, task);
            && (ok <==> task.depth <= maxDepth && ToString(task.url) !in processed)
            && (ok ==> after == processed + {ToString(task.url)})
            && (!ok ==> after == processed)
            && (task.depth > maxDepth ==> !ok && after == processed)
  {
  }

  /** The URL keys of a sequence of tasks. */
  function Keys(tasks: seq<DownloadArg>): (keys: set<string>)
    ensures forall k :: 0 <= k < |tasks| ==> ToString(tasks[k].url) in keys
    decreases |tasks|
  {
    if tasks == [] then {} else Keys(tasks[..|tasks| - 1]) + {ToString(tasks[|tasks| - 1].url)}
  }

  /** Whatever the order of the tasks, every admitted task is within the depth
      limit, was not processed before, and no URL is admitted twice; the set
      afterwards is the set before plus the admitted URLs. */
  lemma {:induction false} AdmittedOnce(processed: set<string>, maxDepth: nat, tasks: seq<DownloadArg>)
    ensures var (admitted, after) := AdmitAll(processed, maxDepth, tasks);
            && (forall k :: 0 <= k < |admitted| ==> admitted[k].depth <= maxDepth)
            && (forall k :: 0 <= k < |admitted| ==> ToString(admitted[k].url) !in processed)
            && (forall k, m :: 0 <= k < m < |admitted| ==> ToString(admitted[k].url) != ToString(admitted[m].url))
            && after == processed + Keys(admitted)
            && |admitted| <= |tasks|
    decreases |tasks|
  {
    if tasks != [] {
      var init := tasks[..|tasks| - 1];
      AdmittedOnce(processed, maxDepth, init);
      var (admitted, set1) := AdmitAll(processed, maxDepth, init);
      var task := tasks[|tasks| - 1];
      var (ok, set2) := AdmitStep(set1, maxDepth, task);
      if ok {
        var admitted' := admitted + [task];
        assert admitted'[..|admitted|] == admitted;
        assert Keys(admitted') == Keys(admitted) + {ToString(task.url)};
      }
    }
  }

  /** The processed set shared by the downloaders, under its mutex. */
  class Admission {
    const maxDepth: nat
    var processed: set<string>

    constructor (maxDepth: nat)
      ensures this.maxDepth == maxDepth && processed == {}
    {
      this.maxDepth := maxDepth;
      processed := {};
    }

    /** The admission of one task taken from the download queue. */
    method Admit(task: DownloadArg) returns (admitted: bool)
      modifies this
      ensures (admitted, processed) == AdmitStep(old(processed), maxDepth, task)
    {
      if task.depth > maxDepth {
        return false;
      }
      var key := ToString(task.url);
      if key in processed {
        return false;
      }
      processed := processed + {key};
      return true;
    }
  }

  // ---------------------------------------------------------------------
  // The coordinator

  /** What the coordinator receives in one iteration of its loop. */
  datatype Message = Tick | Interrupt | DownloaderIdle(downloader: nat) | ParserIdle(parser: nat)

  /** One iteration: the queues as the coordinator sees them, and the message. */
  datatype Round = Round(downloadQueueEmpty: bool, parseQueueEmpty: bool, message: Message)

  /** The two lists of workers that reported idle while there was no work. */
  datatype Idle = Idle(downloaders: seq<nat>, parsers: seq<nat>)

  /** How the coordinator's loop ended. */
  datatype Outcome = Finished | Interrupted | Running

  /** The condition under which the loop keeps going. */
  predicate KeepsGoing(idle: Idle, r: Round, downloadConcurrency: nat, parseConcurrency: nat)
  {
    || |idle.parsers| < parseConcurrency
    || |idle.downloaders| < downloadConcurrency
    || !r.downloadQueueEmpty
    || !r.parseQueueEmpty
  }

  /** One received message. Interrupt is handled by the loop itself. */
  function Receive(idle: Idle, r: Round): (next: Idle)
  {
    var busy := !r.downloadQueueEmpty || !r.parseQueueEmpty;
    match r.message
    case Tick => if busy then Idle([], []) else idle
    case Interrupt => idle
    case DownloaderIdle(id) =>
      if busy || id in idle.downloaders then idle
      else idle.(downloaders := idle.downloaders + [id])
    case ParserIdle(id) =>
      if busy || id in idle.parsers then idle
      else idle.(parsers := idle.parsers + [id])
  }

  /** The coordinator over a sequence of rounds. */
  function Coordinate(rounds: seq<Round>, idle: Idle, downloadConcurrency: nat, parseConcurrency: nat)
    : (Outcome, Idle)
    decreases |rounds|
  {
    if rounds == [] then (Running, idle)
    else if !KeepsGoing(idle, rounds[0], downloadConcurrency, parseConcurrency) then (Finished, idle)
    else if rounds[0].message == Interrupt then (Interrupted, idle)
    else Coordinate(rounds[1..], Receive(idle, rounds[0]), downloadConcurrency, parseConcurrency)
  }

  predicate NoDuplicates(s: seq<nat>)
  {
    forall i, j :: 0 <= i < j < |s| ==> s[i] != s[j]
  }

  predicate Below(s: seq<nat>, n: nat)
  {
    forall i :: 0 <= i < |s| ==> s[i] < n
  }

  /** A worker is listed only while both queues are empty and only once; a
      tick that sees work clears both lists; ids stay in their ranges. */
  lemma ReceiveRules(idle: Idle, r: Round, downloadConcurrency: nat, parseConcurrency: nat)
    requires NoDuplicates(idle.downloaders) && NoDuplicates(idle.parsers)
    requires r.message.DownloaderIdle? ==> r.message.downloader < downloadConcurrency
    requires r.message.ParserIdle? ==> r.message.parser < parseConcurrency
    requires Below(idle.downloaders, downloadConcurrency) && Below(idle.parsers, parseConcurrency)
    ensures var next := Receive(idle, r);
            && NoDuplicates(next.downloaders) && NoDuplicates(next.parsers)
            && Below(next.downloaders, downloadConcurrency) && Below(next.parsers, parseConcurrency)
            && (r.message == Tick && (!r.downloadQueueEmpty || !r.parseQueueEmpty) ==> next == Idle([], []))
            && (|next.downloaders| > |idle.downloaders| ==> r.downloadQueueEmpty && r.parseQueueEmpty)
            && (|next.parsers| > |idle.parsers| ==> r.downloadQueueEmpty && r.parseQueueEmpty)
  {
  }

  /** The ids below n. */
  function IdsBelow(n: nat): (ids: set<nat>)
    ensures forall id :: id in ids <==> 0 <= id < n
    ensures |ids| == n
  {
    if n == 0 then {} else
      var below := IdsBelow(n - 1);
      assert n - 1 !in below;
      below + {n - 1}
  }

  /** The distinct entries of a list of ids. */
  function Members(s: seq<nat>): (m: set<nat>)
    ensures forall id :: id in m <==> id in s
    decreases |s|
  {
    if s == [] then {} else
      assert s == s[..|s| - 1] + [s[|s| - 1]];
      Members(s[..|s| - 1]) + {s[|s| - 1]}
  }

  /** A list without duplicates has as many distinct entries as it is long. */
  lemma {:induction false} MembersSize(s: seq<nat>)
    requires NoDuplicates(s)
    ensures |Members(s)| == |s|
    decreases |s|
  {
    if s != [] {
      var init := s[..|s| - 1];
      MembersSize(init);
      assert s[|s| - 1] !in init;
    }
  }

  /** A set that misses an element of a superset is smaller than it. */
  lemma ProperSubsetSmaller(a: set<nat>, b: set<nat>, x: nat)
    requires a <= b && x in b && x !in a
    ensures |a| < |b|
  {
    var c := b - {x};
    assert a <= c;
    assert c == a + (c - a);
    assert |c| == |a| + |c - a|;
  }

  /** Distinct ids below n that number at least n are all the ids below n. */
  lemma AllListed(s: seq<nat>, n: nat)
    requires NoDuplicates(s) && Below(s, n) && |s| >= n
    ensures forall id :: 0 <= id < n ==> id in s
  {
    var listed := Members(s);
    var below := IdsBelow(n);
    MembersSize(s);
    assert listed <= below;
    forall id | 0 <= id < n
      ensures id in s
    {
      if id !in s {
        ProperSubsetSmaller(listed, below, id);
      }
    }
  }

  /** The coordinator keeps its lists free of duplicates and in range, and it
      ends the program only when both queues are empty and every downloader and
      every parser is listed as idle. */
  lemma {:induction false} CoordinatorEndsWhenAllIdle(rounds: seq<Round>, idle: Idle,
                                                      downloadConcurrency: nat, parseConcurrency: nat)
    requires NoDuplicates(idle.downloaders) && NoDuplicates(idle.parsers)
    requires Below(idle.downloaders, downloadConcurrency) && Below(idle.parsers, parseConcurrency)
    requires forall k :: 0 <= k < |rounds| && rounds[k].message.DownloaderIdle?
               ==> rounds[k].message.downloader < downloadConcurrency
    requires forall k :: 0 <= k < |rounds| && rounds[k].message.ParserIdle?
               ==> rounds[k].message.parser < parseConcurrency
    ensures var (outcome, last) := Coordinate(rounds, idle, downloadConcurrency, parseConcurrency);
            && NoDuplicates(last.downloaders) && NoDuplicates(last.parsers)
            && (outcome == Finished ==>
                  && (forall id :: 0 <= id < downloadConcurrency ==> id in last.downloaders)
                  && (forall id :: 0 <= id < parseConcurrency ==> id in last.parsers)
                  && (exists k :: 0 <= k < |rounds| && rounds[k].downloadQueueEmpty && rounds[k].parseQueueEmpty))
    decreases |rounds|
  {
    if rounds != [] {
      if !KeepsGoing(idle, rounds[0], downloadConcurrency, parseConcurrency) {
        AllListed(idle.downloaders, downloadConcurrency);
        AllListed(idle.parsers, parseConcurrency);
        assert rounds[0].downloadQueueEmpty && rounds[0].parseQueueEmpty;
      } else if rounds[0].message != Interrupt {
        var next := Receive(idle, rounds[0]);
        ReceiveRules(idle, rounds[0], downloadConcurrency, parseConcurrency);
        CoordinatorEndsWhenAllIdle(rounds[1..], next, downloadConcurrency, parseConcurrency);
        if Coordinate(rounds[1..], next, downloadConcurrency, parseConcurrency).0 == Finished {
          var k :| 0 <= k < |rounds[1..]| && rounds[1..][k].downloadQueueEmpty && rounds[1..][k].parseQueueEmpty;
          assert rounds[k + 1] == rounds[1..][k];
        }
      }
    }
  }

  /** The coordinator goroutine: starts with empty lists and runs until the
      exit condition holds or it is interrupted. */
  method Coordinator(rounds: seq<Round>, downloadConcurrency: nat, parseConcurrency: nat)
    returns (outcome: Outcome, exitingDownloaders: seq<nat>, exitingParsers: seq<nat>)
    ensures (outcome, Idle(exitingDownloaders, exitingParsers))
         == Coordinate(rounds, Idle([], []), downloadConcurrency, parseConcurrency)
  {
    exitingDownloaders := [];
    exitingParsers := [];
    var i := 0;
    while i < |rounds|
      invariant i <= |rounds|
      invariant Coordinate(rounds[i..], Idle(exitingDownloaders, exitingParsers), downloadConcurrency, parseConcurrency)
             == Coordinate(rounds, Idle([], []), downloadConcurrency, parseConcurrency)
    {
      var r := rounds[i];
      assert rounds[i..][1..] == rounds[i + 1..];
      if !(|exitingParsers| < parseConcurrency || |exitingDownloaders| < downloadConcurrency
           || !r.downloadQueueEmpty || !r.parseQueueEmpty) {
        return Finished, exitingDownloaders, exitingParsers;
      }
      var busy := !r.downloadQueueEmpty || !r.parseQueueEmpty;
      match r.message {
        case Tick =>
          if busy {
            exitingDownloaders := [];
            exitingParsers := [];
          }
        case Interrupt =>
          return Interrupted, exitingDownloaders, exitingParsers;
        case DownloaderIdle(id) =>
          if !busy {
            var listed := Contains(exitingDownloaders, id);
            if !listed {
              exitingDownloaders := exitingDownloaders + [id];
            }
          }
        case ParserIdle(id) =>
          if !busy {
            var listed := Contains(exitingParsers, id);
            if !listed {
              exitingParsers := exitingParsers + [id];
            }
          }
      }
      i := i + 1;
    }
    return Running, exitingDownloaders, exitingParsers;
  }
}
