/**
 * Processing a folder of files (`_process_filesystem_definition`,
 * `packages/pipelines/configured_ingestion_definition.py`).
 */
module InboxProcessing {
  import opened Prelude
  import opened Text
  import opened SortedKeys

  datatype Path = Path(dir: string, name: string)

  /** Regular files with their contents. */
  type Files = map<Path, string>

  /** What ingesting a file comes to; the run id is chosen by the landing service. */
  datatype Ingestion = Raised | Landed(runId: string, passed: bool)

  type Ingest = (string, string) -> Ingestion

  /** `matches` is the file pattern, which does not descend into sub-directories; a path of `""` is not configured. */
  datatype Folder = Folder(inbox: string, processedPath: string, failedPath: string, matches: string -> bool)
  {
    function ProcessedDir(): string { if processedPath != "" then processedPath else inbox + "/processed" }
    function FailedDir(): string { if failedPath != "" then failedPath else inbox + "/failed" }

    function Destination(runId: string, passed: bool, name: string): Path {
      Path(if passed then ProcessedDir() else FailedDir(), runId + "-" + name)
    }

    predicate Waiting(files: Files, name: string) {
      Path(inbox, name) in files && matches(name)
    }
  }

  /** `source.replace(destination)`. */
  function Replace(files: Files, source: Path, destination: Path): Files
    requires source in files
  {
    (files - {source})[destination := files[source]]
  }

  datatype Progress = Progress(
    files: Files, discovered: nat, processed: nat, rejected: nat, runIds: seq<string>, raised: bool)

  function Next(folder: Folder, ingest: Ingest, p: Progress, name: string): Progress {
    var source := Path(folder.inbox, name);
    if p.raised || source !in p.files then p
    else
      match ingest(name, p.files[source])
      case Raised => p.(discovered := p.discovered + 1, raised := true)
      case Landed(runId, passed) =>
        Progress(
          Replace(p.files, source, folder.Destination(runId, passed, name)), p.discovered + 1,
          p.processed + (if passed then 1 else 0), p.rejected + (if passed then 0 else 1), p.runIds + [runId], false)
  }

  /** The loop over `names`. */
  function After(folder: Folder, ingest: Ingest, files: Files, names: seq<string>): Progress {
    if names == [] then Progress(files, 0, 0, 0, [], false)
    else Next(folder, ingest, After(folder, ingest, files, names[..|names| - 1]), names[|names| - 1])
  }

  // ------------------------------------------------------------------ the code

  datatype Report = Report(discovered: nat, processed: nat, rejected: nat, runIds: seq<string>)

  class FileSystem {
    var files: Files

    /** The files waiting in the inbox, by name. */
    method Listing(folder: Folder) returns (names: seq<string>)
      ensures Ascending(names) && forall n :: n in names <==> folder.Waiting(files, n)
    {
      var matching := set path | path in files && path.dir == folder.inbox && folder.matches(path.name) :: path.name;
      names := Ordered(matching);
      forall n ensures n in names <==> folder.Waiting(files, n) {
        if folder.Waiting(files, n) { assert Path(folder.inbox, n).name in matching; }
      }
    }

    /** The loop over the listed files. `None` when an ingestion raised; the files stand as moved until then. */
    method Visit(folder: Folder, ingest: Ingest, listing: seq<string>) returns (r: Option<Report>)
      modifies this
      ensures files == After(folder, ingest, old(files), listing).files
      ensures r.None? <==> After(folder, ingest, old(files), listing).raised
      ensures r.Some? ==>
                var p := After(folder, ingest, old(files), listing);
                r.value == Report(p.discovered, p.processed, p.rejected, p.runIds)
    {
      var discovered, processed, rejected, runIds := 0, 0, 0, [];
      for k := 0 to |listing|
        invariant After(folder, ingest, old(files), listing[..k]) ==
                    Progress(files, discovered, processed, rejected, runIds, false)
      {
        assert listing[..k + 1][..k] == listing[..k];
        var source := Path(folder.inbox, listing[k]);
        if source in files {
          discovered := discovered + 1;
          match ingest(listing[k], files[source]) {
            case Raised =>
              RaisedStays(folder, ingest, old(files), listing, k + 1);
              return None;
            case Landed(runId, passed) =>
              runIds := runIds + [runId];
              if passed { processed := processed + 1; } else { rejected := rejected + 1; }
              files := Replace(files, source, folder.Destination(runId, passed, listing[k]));
          }
        }
      }
      assert listing[..|listing|] == listing;
      return Some(Report(discovered, processed, rejected, runIds));
    }

    /**
     * `_process_filesystem_definition`. Unless destinations meet, every file the loop got to stands under its
     * run in the directory of its verdict, and the report counts them.
     */
    method ProcessFolder(folder: Folder, ingest: Ingest) returns (r: Option<Report>, ghost names: seq<string>)
      modifies this
      ensures Ascending(names)
      ensures forall n :: n in names <==> Path(folder.inbox, n) in old(files) && folder.matches(n)
      ensures files == After(folder, ingest, old(files), names).files
      ensures r.None? <==> After(folder, ingest, old(files), names).raised
      ensures r.Some? ==>
                var p := After(folder, ingest, old(files), names);
                r.value == Report(p.discovered, p.processed, p.rejected, p.runIds)
      ensures forall length: nat :: FreshRunIds(folder, ingest, old(files), names, length) ==> |files| == |old(files)|
      ensures |files| == |old(files)| ==>
                Delivered(folder, ingest, old(files), names, Reached(folder, ingest, old(files), names), files, r)
    {
      var listing := Listing(folder);
      names := listing;
      AscendingIsDistinct(listing);
      assert forall n :: n in names <==> folder.Waiting(files, n);
      FilesAreDelivered(folder, ingest, files, listing);
      r := Visit(folder, ingest, listing);
    }
  }

  lemma {:induction false} RaisedStays(folder: Folder, ingest: Ingest, files: Files, names: seq<string>, k: nat)
    requires k <= |names| && After(folder, ingest, files, names[..k]).raised
    ensures After(folder, ingest, files, names) == After(folder, ingest, files, names[..k])
    decreases |names|
  {
    if k < |names| {
      assert names[..|names| - 1][..k] == names[..k];
      RaisedStays(folder, ingest, files, names[..|names| - 1], k);
    } else {
      assert names[..k] == names;
    }
  }

  // ------------------------------------------------------------------ conservation

  /** The run a file is landed as, from its original content. */
  function RunFor(folder: Folder, ingest: Ingest, files: Files, name: string): Ingestion {
    if Path(folder.inbox, name) in files then ingest(name, files[Path(folder.inbox, name)]) else Raised
  }

  /** Files before the first one whose ingestion raises. */
  function Reached(folder: Folder, ingest: Ingest, files: Files, names: seq<string>): (k: nat)
    ensures k <= |names|
  {
    if names == [] then 0
    else
      var n := |names| - 1;
      var before := Reached(folder, ingest, files, names[..n]);
      if before == n && RunFor(folder, ingest, files, names[n]).Landed? then n + 1 else before
  }

  /** Where a file that is landed goes; every other one stays in the inbox. */
  function Goal(folder: Folder, ingest: Ingest, files: Files, name: string): Path {
    match RunFor(folder, ingest, files, name)
    case Landed(runId, passed) => folder.Destination(runId, passed, name)
    case Raised => Path(folder.inbox, name)
  }

  /** Where a file is after the loop got through the names in `done`. */
  ghost function Home(folder: Folder, ingest: Ingest, files: Files, done: seq<string>, path: Path): Path {
    if path.dir == folder.inbox && path.name in done then Goal(folder, ingest, files, path.name) else path
  }

  predicate OfLength(folder: Folder, ingest: Ingest, files: Files, n: string, length: nat) {
    RunFor(folder, ingest, files, n).Landed? ==> |RunFor(folder, ingest, files, n).runId| == length
  }

  predicate DifferentRuns(folder: Folder, ingest: Ingest, files: Files, n: string, m: string) {
    RunFor(folder, ingest, files, n).Landed? && n != m ==>
      RunFor(folder, ingest, files, m).Landed? ==>
        RunFor(folder, ingest, files, n).runId != RunFor(folder, ingest, files, m).runId
  }

  predicate Unused(folder: Folder, ingest: Ingest, files: Files, n: string, path: Path) {
    RunFor(folder, ingest, files, n).Landed? ==> !(RunFor(folder, ingest, files, n).runId + "-" <= path.name)
  }

  /** Run ids are all of one length, different for different files, and new to every name in sight. */
  ghost predicate FreshRunIds(folder: Folder, ingest: Ingest, files: Files, names: seq<string>, length: nat) {
    && (forall n {:trigger OfLength(folder, ingest, files, n, length)} :: n in names ==>
      OfLength(folder, ingest, files, n, length))
    && (forall n, m {:trigger DifferentRuns(folder, ingest, files, n, m)} :: n in names && m in names ==>
          DifferentRuns(folder, ingest, files, n, m))
    && (forall n, path {:trigger Unused(folder, ingest, files, n, path)} :: n in names && path in files ==>
          Unused(folder, ingest, files, n, path))
  }

  ghost function Homes(folder: Folder, ingest: Ingest, files: Files, done: seq<string>): map<Path, Path> {
    map p | p in files :: Home(folder, ingest, files, done, p)
  }

  /** `moved` is a rearrangement of `files`: every file is at its home, alone, and there is nothing else. */
  ghost predicate Rearranged(files: Files, homes: map<Path, Path>, moved: Files) {
    && homes.Keys == files.Keys
    && (forall p :: p in files ==> homes[p] in moved && moved[homes[p]] == files[p])
    && (forall p, q {:trigger Apart(homes, p, q)} :: p in files && q in files && p != q ==> Apart(homes, p, q))
    && moved.Keys == homes.Values
  }

  predicate Apart(homes: map<Path, Path>, p: Path, q: Path) {
    p in homes && q in homes ==> homes[p] != homes[q]
  }

  lemma MoveOne(files: Files, homes: map<Path, Path>, moved: Files, source: Path, destination: Path)
    requires Rearranged(files, homes, moved)
    requires source in files && homes[source] == source && destination !in homes.Values
    ensures source in moved && Rearranged(files, homes[source := destination], Replace(moved, source, destination))
  {
    var after, homes' := Replace(moved, source, destination), homes[source := destination];
    forall p | p in files && p != source
      ensures homes[p] != source && homes[p] in after && after[homes[p]] == files[p]
    {
      assert Apart(homes, p, source);
    }
    forall p, q | p in files && q in files && p != q ensures Apart(homes', p, q) {
      assert Apart(homes, p, q);
    }
    forall f | f in after ensures f in homes'.Values {
      if f != destination {
        var p :| p in files && homes[p] == f;
        assert homes'[p] == f;
      } else {
        assert homes'[source] == f;
      }
    }
    forall f | f in homes'.Values ensures f in after {
      var p :| p in files && homes'[p] == f;
    }
  }

  /** None of the first `k` destinations is any file's place when its turn comes. */
  ghost predicate AllFree(folder: Folder, ingest: Ingest, files: Files, names: seq<string>, k: nat)
    requires k <= |names|
  {
    forall n {:trigger IsFree(folder, ingest, files, names, n)} :: 0 <= n < k ==>
      IsFree(folder, ingest, files, names, n)
  }

  ghost predicate IsFree(folder: Folder, ingest: Ingest, files: Files, names: seq<string>, n: nat)
    requires n < |names|
  {
    Goal(folder, ingest, files, names[n]) !in Homes(folder, ingest, files, names[..n]).Values
  }

  /** With fresh run ids a destination shares no path with any other file's home. */
  lemma DestinationIsFree(
    folder: Folder, ingest: Ingest, files: Files, names: seq<string>, length: nat, done: seq<string>, name: string,
    q: Path)
    requires FreshRunIds(folder, ingest, files, names, length)
    requires name in names && RunFor(folder, ingest, files, name).Landed?
    requires forall n :: n in done ==> n in names
    requires q in files && q != Path(folder.inbox, name)
    ensures Home(folder, ingest, files, done, q) != Goal(folder, ingest, files, name)
  {
    var run := RunFor(folder, ingest, files, name);
    var home := Home(folder, ingest, files, done, q);
    assert run.runId + "-" <= run.runId + "-" + name;
    assert Unused(folder, ingest, files, name, q) && OfLength(folder, ingest, files, name, length);
    if home != q {
      assert DifferentRuns(folder, ingest, files, name, q.name) && OfLength(folder, ingest, files, q.name, length);
      var other := RunFor(folder, ingest, files, q.name);
      assert home.name == other.runId + "-" + q.name;
      assert home.name[..length] == other.runId && (run.runId + "-" + name)[..length] == run.runId;
    }
  }

  /** Fresh run ids keep every destination free. */
  lemma FreshRunsAreFree(folder: Folder, ingest: Ingest, files: Files, names: seq<string>, length: nat, k: nat)
    requires FreshRunIds(folder, ingest, files, names, length) && k <= |names|
    requires Distinct(names) && forall n :: n in names[..k] ==> RunFor(folder, ingest, files, n).Landed?
    ensures AllFree(folder, ingest, files, names, k)
  {
    forall n: nat | n < k ensures IsFree(folder, ingest, files, names, n) {
      var name := names[n];
      assert name in names[..k];
      forall q | q in files ensures Home(folder, ingest, files, names[..n], q) != Goal(folder, ingest, files, name) {
        if q != Path(folder.inbox, name) {
          DestinationIsFree(folder, ingest, files, names, length, names[..n], name, q);
        } else {
          var run := RunFor(folder, ingest, files, name);
          assert Unused(folder, ingest, files, name, q) && run.runId + "-" <= run.runId + "-" + name;
          SplitsDistinct(names, n, name);
        }
      }
    }
  }

  lemma RearrangeOne(folder: Folder, ingest: Ingest, files: Files, done: seq<string>, moved: Files, name: string)
    requires Rearranged(files, Homes(folder, ingest, files, done), moved)
    requires name !in done && RunFor(folder, ingest, files, name).Landed? && Path(folder.inbox, name) in files
    requires Goal(folder, ingest, files, name) !in Homes(folder, ingest, files, done).Values
    ensures var source := Path(folder.inbox, name);
            source in moved && Rearranged(files, Homes(folder, ingest, files, done + [name]),
              Replace(moved, source, Goal(folder, ingest, files, name)))
  {
    HomesGrow(folder, ingest, files, done, name);
    MoveOne(files, Homes(folder, ingest, files, done), moved, Path(folder.inbox, name),
      Goal(folder, ingest, files, name));
  }

  lemma HomesGrow(folder: Folder, ingest: Ingest, files: Files, done: seq<string>, name: string)
    requires Path(folder.inbox, name) in files && name !in done
    ensures Homes(folder, ingest, files, done)[Path(folder.inbox, name)] == Path(folder.inbox, name)
    ensures Homes(folder, ingest, files, done + [name]) ==
            Homes(folder, ingest, files, done)[Path(folder.inbox, name) := Goal(folder, ingest, files, name)]
  {
    assert forall n :: n in done + [name] <==> n in done || n == name;
  }

  lemma ReplaceSize(files: Files, source: Path, destination: Path)
    requires source in files && source != destination
    ensures |Replace(files, source, destination)| == |files| - if destination in files then 1 else 0
  {
    assert Replace(files, source, destination).Keys == files.Keys - {source} + {destination};
  }

  /** Progress after the loop got through the first `k` of `names`, and no further. */
  ghost predicate Accounted(folder: Folder, ingest: Ingest, files: Files, names: seq<string>, k: nat, p: Progress)
    requires k <= |names|
  {
    && Rearranged(files, Homes(folder, ingest, files, names[..k]), p.files) && |p.files| == |files|
    && (p.raised <==> k < |names|)
    && p.processed + p.rejected == |p.runIds| == k && p.discovered == k + (if p.raised then 1 else 0)
  }

  /** As long as destinations are free nothing is lost, and the counters are right. */
  lemma {:induction false} FreeDestinationsLoseNothing(folder: Folder, ingest: Ingest, files: Files, names: seq<string>)
    requires Distinct(names) && forall n :: n in names ==> Path(folder.inbox, n) in files
    requires AllFree(folder, ingest, files, names, Reached(folder, ingest, files, names))
    ensures Accounted(folder, ingest, files, names, Reached(folder, ingest, files, names),
              After(folder, ingest, files, names))
    decreases |names|
  {
    if names == [] {
      assert Homes(folder, ingest, files, []) == map p | p in files :: p;
    } else {
      var n, front := |names| - 1, names[..|names| - 1];
      SplitsDistinct(names, n, names[n]);
      assert forall m :: m in front ==> m in names;
      FreeForFewer(folder, ingest, files, names, n, Reached(folder, ingest, files, front));
      FreeDestinationsLoseNothing(folder, ingest, files, front);
      OneMore(folder, ingest, files, names);
    }
  }

  lemma {:induction false} FreeForFewer(
    folder: Folder, ingest: Ingest, files: Files, names: seq<string>, n: nat, k: nat)
    requires k <= n <= |names| && AllFree(folder, ingest, files, names, k)
    ensures AllFree(folder, ingest, files, names[..n], k)
  {
    forall m: nat | m < k ensures IsFree(folder, ingest, files, names[..n], m) {
      assert IsFree(folder, ingest, files, names, m) && names[..n][..m] == names[..m];
    }
  }

  lemma {:induction false} OneMore(folder: Folder, ingest: Ingest, files: Files, names: seq<string>)
    requires names != [] && AllFree(folder, ingest, files, names, Reached(folder, ingest, files, names))
    requires Path(folder.inbox, names[|names| - 1]) in files && names[|names| - 1] !in names[..|names| - 1]
    requires var front := names[..|names| - 1];
             Accounted(folder, ingest, files, front, Reached(folder, ingest, files, front),
               After(folder, ingest, files, front))
    ensures Accounted(folder, ingest, files, names, Reached(folder, ingest, files, names),
              After(folder, ingest, files, names))
  {
    var n := |names| - 1;
    var k, before := Reached(folder, ingest, files, names[..n]), After(folder, ingest, files, names[..n]);
    if k == n {
      assert names[..n][..k] == names[..n];
      if RunFor(folder, ingest, files, names[n]).Landed? { assert IsFree(folder, ingest, files, names, n); }
      Continue(folder, ingest, files, names, before);
    } else {
      assert names[..k] == names[..n][..k];
    }
  }

  lemma {:induction false} Continue(folder: Folder, ingest: Ingest, files: Files, names: seq<string>, before: Progress)
    requires names != []
    requires Path(folder.inbox, names[|names| - 1]) in files && names[|names| - 1] !in names[..|names| - 1]
    requires RunFor(folder, ingest, files, names[|names| - 1]).Landed? ==>
               IsFree(folder, ingest, files, names, |names| - 1)
    requires Rearranged(files, Homes(folder, ingest, files, names[..|names| - 1]), before.files) && !before.raised
    requires before.processed + before.rejected == |before.runIds| == before.discovered == |names| - 1
    requires |before.files| == |files|
    ensures var n := |names| - 1;
            Accounted(folder, ingest, files, names,
                      if RunFor(folder, ingest, files, names[n]).Landed? then n + 1 else n,
                      Next(folder, ingest, before, names[n]))
  {
    var n := |names| - 1;
    Stays(folder, ingest, files, names[..n], before.files, names[n]);
    if RunFor(folder, ingest, files, names[n]).Landed? {
      RearrangeOne(folder, ingest, files, names[..n], before.files, names[n]);
      GoalIsElsewhere(folder, ingest, files, names[n]);
      ReplaceSize(before.files, Path(folder.inbox, names[n]), Goal(folder, ingest, files, names[n]));
      LastAppended(names);
      ContinueLanded(folder, ingest, files, names, before);
    } else {
      ContinueRaised(folder, ingest, files, names, before);
    }
  }

  /** A new name is longer than the old one. */
  lemma GoalIsElsewhere(folder: Folder, ingest: Ingest, files: Files, name: string)
    requires RunFor(folder, ingest, files, name).Landed?
    ensures Goal(folder, ingest, files, name) != Path(folder.inbox, name)
  {
    assert |Goal(folder, ingest, files, name).name| > |name|;
  }

  lemma LastAppended(names: seq<string>)
    requires names != []
    ensures names[..|names|] == names[..|names| - 1] + [names[|names| - 1]]
  {
  }

  lemma ContinueRaised(folder: Folder, ingest: Ingest, files: Files, names: seq<string>, before: Progress)
    requires names != [] && !before.raised
    requires before.processed + before.rejected == |before.runIds| == before.discovered == |names| - 1
    requires |before.files| == |files|
    requires var source := Path(folder.inbox, names[|names| - 1]);
             && RunFor(folder, ingest, files, names[|names| - 1]).Raised?
             && source in before.files && source in files && before.files[source] == files[source]
    requires Rearranged(files, Homes(folder, ingest, files, names[..|names| - 1]), before.files)
    ensures Accounted(folder, ingest, files, names, |names| - 1, Next(folder, ingest, before, names[|names| - 1]))
  {
  }

  lemma ContinueLanded(folder: Folder, ingest: Ingest, files: Files, names: seq<string>, before: Progress)
    requires names != [] && !before.raised
    requires before.processed + before.rejected == |before.runIds| == before.discovered == |names| - 1
    requires var source := Path(folder.inbox, names[|names| - 1]);
             var goal := Goal(folder, ingest, files, names[|names| - 1]);
             && RunFor(folder, ingest, files, names[|names| - 1]).Landed?
             && source in before.files && source in files && before.files[source] == files[source]
             && Rearranged(files, Homes(folder, ingest, files, names[..|names|]), Replace(before.files, source, goal))
             && |Replace(before.files, source, goal)| == |files|
    ensures Accounted(folder, ingest, files, names, |names|, Next(folder, ingest, before, names[|names| - 1]))
  {
  }

  // ------------------------------------------------------------------ exactly when nothing is lost

  /** Files only ever get fewer. */
  lemma {:induction false} FilesNeverMultiply(folder: Folder, ingest: Ingest, files: Files, names: seq<string>, n: nat)
    requires n <= |names|
    ensures |After(folder, ingest, files, names).files| <= |After(folder, ingest, files, names[..n]).files|
    decreases |names|
  {
    if n == |names| {
      assert names[..n] == names;
    } else {
      var last := |names| - 1;
      FilesNeverMultiply(folder, ingest, files, names[..last], n);
      assert names[..last][..n] == names[..n];
      OneStepKeepsOrLoses(folder, ingest, After(folder, ingest, files, names[..last]), names[last]);
    }
  }

  lemma OneStepKeepsOrLoses(folder: Folder, ingest: Ingest, p: Progress, name: string)
    ensures |Next(folder, ingest, p, name).files| <= |p.files|
  {
    var source := Path(folder.inbox, name);
    if !p.raised && source in p.files && ingest(name, p.files[source]).Landed? {
      var run := ingest(name, p.files[source]);
      var destination := folder.Destination(run.runId, run.passed, name);
      assert |destination.name| > |name|;
      ReplaceSize(p.files, source, destination);
    }
  }

  /** The first destination that is some file's place costs that file. */
  lemma {:induction false} TakenDestinationLosesAFile(
    folder: Folder, ingest: Ingest, files: Files, names: seq<string>, n: nat)
    requires Distinct(names) && forall m :: m in names ==> Path(folder.inbox, m) in files
    requires n < Reached(folder, ingest, files, names) && AllFree(folder, ingest, files, names, n)
    requires !IsFree(folder, ingest, files, names, n)
    ensures |After(folder, ingest, files, names).files| < |files|
  {
    ReachedFrontIsRearranged(folder, ingest, files, names, n);
    NextIsNew(names, n);
    ReachedOfPrefix(folder, ingest, files, names, n + 1);
    TakenIsOverwritten(folder, ingest, files, names, n, After(folder, ingest, files, names[..n]));
    AfterOneMore(folder, ingest, files, names, n);
    FilesNeverMultiply(folder, ingest, files, names, n + 1);
  }

  lemma {:induction false} ReachedFrontIsRearranged(
    folder: Folder, ingest: Ingest, files: Files, names: seq<string>, n: nat)
    requires Distinct(names) && forall m :: m in names ==> Path(folder.inbox, m) in files
    requires n < Reached(folder, ingest, files, names) && AllFree(folder, ingest, files, names, n)
    ensures var before := After(folder, ingest, files, names[..n]);
            && Rearranged(files, Homes(folder, ingest, files, names[..n]), before.files)
            && |before.files| == |files| && !before.raised
  {
    ReachedOfPrefix(folder, ingest, files, names, n);
    FreeForFewer(folder, ingest, files, names, n, n);
    FrontIsDistinct(names, n);
    PrefixIsRearranged(folder, ingest, files, names[..n]);
  }

  lemma FrontIsDistinct(names: seq<string>, n: nat)
    requires Distinct(names) && n <= |names|
    ensures Distinct(names[..n]) && forall m :: m in names[..n] ==> m in names
  {
  }

  lemma NextIsNew(names: seq<string>, n: nat)
    requires Distinct(names) && n < |names|
    ensures names[n] in names && names[n] !in names[..n]
  {
  }

  lemma {:induction false} PrefixIsRearranged(folder: Folder, ingest: Ingest, files: Files, front: seq<string>)
    requires Distinct(front) && forall m :: m in front ==> Path(folder.inbox, m) in files
    requires Reached(folder, ingest, files, front) == |front| && AllFree(folder, ingest, files, front, |front|)
    ensures var before := After(folder, ingest, files, front);
            && Rearranged(files, Homes(folder, ingest, files, front), before.files)
            && |before.files| == |files| && !before.raised
  {
    FreeDestinationsLoseNothing(folder, ingest, files, front);
    assert front[..|front|] == front;
  }

  lemma AfterOneMore(folder: Folder, ingest: Ingest, files: Files, names: seq<string>, n: nat)
    requires n < |names|
    ensures After(folder, ingest, files, names[..n + 1]) ==
              Next(folder, ingest, After(folder, ingest, files, names[..n]), names[n])
  {
    assert names[..n + 1][..n] == names[..n];
  }

  lemma {:induction false} TakenIsOverwritten(
    folder: Folder, ingest: Ingest, files: Files, names: seq<string>, n: nat, before: Progress)
    requires n < |names| && Path(folder.inbox, names[n]) in files && names[n] !in names[..n]
    requires Rearranged(files, Homes(folder, ingest, files, names[..n]), before.files)
    requires |before.files| == |files| && !before.raised
    requires RunFor(folder, ingest, files, names[n]).Landed? && !IsFree(folder, ingest, files, names, n)
    ensures |Next(folder, ingest, before, names[n]).files| < |files|
  {
    Stays(folder, ingest, files, names[..n], before.files, names[n]);
    GoalIsElsewhere(folder, ingest, files, names[n]);
    ReplaceSize(before.files, Path(folder.inbox, names[n]), Goal(folder, ingest, files, names[n]));
  }

  lemma {:induction false} ReachedOfPrefix(folder: Folder, ingest: Ingest, files: Files, names: seq<string>, n: nat)
    requires n <= Reached(folder, ingest, files, names)
    ensures Reached(folder, ingest, files, names[..n]) == n
    ensures n > 0 ==> RunFor(folder, ingest, files, names[n - 1]).Landed?
    decreases |names|
  {
    if n == |names| {
      assert names[..n] == names;
    } else {
      ReachedOfPrefix(folder, ingest, files, names[..|names| - 1], n);
      assert names[..|names| - 1][..n] == names[..n];
    }
  }

  /**
   * No file is lost exactly when every destination is free when its turn comes; then each file is at its
   * home with its content, and nothing else is there.
   */
  lemma {:induction false} NothingIsLostExactlyWhenDestinationsAreFree(
    folder: Folder, ingest: Ingest, files: Files, names: seq<string>)
    requires Distinct(names) && forall n :: n in names ==> Path(folder.inbox, n) in files
    ensures var k, p := Reached(folder, ingest, files, names), After(folder, ingest, files, names);
            && (|p.files| == |files| <==> AllFree(folder, ingest, files, names, k))
            && (|p.files| == |files| ==> Rearranged(files, Homes(folder, ingest, files, names[..k]), p.files))
  {
    var k := Reached(folder, ingest, files, names);
    if AllFree(folder, ingest, files, names, k) {
      FreeDestinationsLoseNothing(folder, ingest, files, names);
    } else {
      var n := FirstTaken(folder, ingest, files, names, k);
      TakenDestinationLosesAFile(folder, ingest, files, names, n);
    }
  }

  lemma {:induction false} FirstTaken(folder: Folder, ingest: Ingest, files: Files, names: seq<string>, k: nat)
    returns (n: nat)
    requires k <= |names| && !AllFree(folder, ingest, files, names, k)
    ensures n < k && AllFree(folder, ingest, files, names, n) && !IsFree(folder, ingest, files, names, n)
  {
    n := 0;
    while IsFree(folder, ingest, files, names, n)
      invariant n < k && AllFree(folder, ingest, files, names, n)
      decreases k - n
    {
      n := n + 1;
    }
  }

  /**
   * With output directories other than the inbox that means: the destinations are pairwise different and no
   * file was there before.
   */
  lemma {:induction false} FreeExactlyWhenDifferentAndNew(
    folder: Folder, ingest: Ingest, files: Files, names: seq<string>, k: nat)
    requires Distinct(names) && k <= |names| && forall n :: n in names ==> Path(folder.inbox, n) in files
    requires forall n :: n in names[..k] ==> RunFor(folder, ingest, files, n).Landed?
    requires folder.ProcessedDir() != folder.inbox && folder.FailedDir() != folder.inbox
    ensures AllFree(folder, ingest, files, names, k) <==>
            && (forall n :: 0 <= n < k ==> Goal(folder, ingest, files, names[n]) !in files)
            && (forall m, n :: 0 <= m < n < k ==>
              Goal(folder, ingest, files, names[m]) != Goal(folder, ingest, files, names[n]))
  {
    forall n: nat | n < k
      ensures IsFree(folder, ingest, files, names, n) <==>
              Goal(folder, ingest, files, names[n]) !in files &&
              forall m :: 0 <= m < n ==> Goal(folder, ingest, files, names[m]) != Goal(folder, ingest, files, names[n])
    {
      assert forall m :: 0 <= m <= n ==> names[m] in names[..k];
      OneIsFreeExactlyWhen(folder, ingest, files, names, n);
    }
  }

  lemma {:induction false} OneIsFreeExactlyWhen(
    folder: Folder, ingest: Ingest, files: Files, names: seq<string>, n: nat)
    requires n < |names| && forall m :: 0 <= m <= n ==> Path(folder.inbox, names[m]) in files
    requires forall m :: 0 <= m <= n ==> RunFor(folder, ingest, files, names[m]).Landed?
    requires folder.ProcessedDir() != folder.inbox && folder.FailedDir() != folder.inbox
    ensures IsFree(folder, ingest, files, names, n) <==>
            Goal(folder, ingest, files, names[n]) !in files &&
            forall m :: 0 <= m < n ==> Goal(folder, ingest, files, names[m]) != Goal(folder, ingest, files, names[n])
  {
    var goal, homes := Goal(folder, ingest, files, names[n]), Homes(folder, ingest, files, names[..n]);
    if goal in files {
      assert homes[goal] == goal;
    }
    if m :| 0 <= m < n && Goal(folder, ingest, files, names[m]) == goal {
      assert names[m] in names[..n] && homes[Path(folder.inbox, names[m])] == goal;
    }
    if goal in homes.Values {
      var q :| q in files && homes[q] == goal;
      if q != goal {
        var m :| 0 <= m < n && names[..n][m] == q.name;
        assert Goal(folder, ingest, files, names[m]) == goal;
      }
    }
  }

  /**
   * With fresh run ids of one length no file is lost or overwritten, even when an ingestion raises: the
   * files before it are in their output directory, under their run, and everything else is where it was.
   */
  lemma NoFileIsLost(folder: Folder, ingest: Ingest, files: Files, names: seq<string>, length: nat)
    requires Distinct(names) && forall n :: n in names ==> Path(folder.inbox, n) in files
    requires FreshRunIds(folder, ingest, files, names, length)
    ensures Accounted(folder, ingest, files, names, Reached(folder, ingest, files, names),
              After(folder, ingest, files, names))
  {
    ReachedLanded(folder, ingest, files, names);
    FreshRunsAreFree(folder, ingest, files, names, length, Reached(folder, ingest, files, names));
    FreeDestinationsLoseNothing(folder, ingest, files, names);
  }

  // ------------------------------------------------------------------ where the files are

  predicate PassedAt(folder: Folder, ingest: Ingest, before: Files, names: seq<string>, i: int, passed: bool) {
    && 0 <= i < |names| && Path(folder.inbox, names[i]) in before
    && var run := ingest(names[i], before[Path(folder.inbox, names[i])]); run.Landed? && run.passed == passed
  }

  /** How many of the first `k` files passed, or did not. */
  function Count(folder: Folder, ingest: Ingest, before: Files, names: seq<string>, k: nat, passed: bool): nat {
    |set i | 0 <= i < k && PassedAt(folder, ingest, before, names, i, passed)|
  }

  /** A file that was ingested stands with its content where its run and verdict put it. */
  predicate DeliveredFile(folder: Folder, ingest: Ingest, before: Files, name: string, after: Files) {
    && Path(folder.inbox, name) in before
    && var content := before[Path(folder.inbox, name)];
       var run := ingest(name, content);
       && run.Landed?
       && var processed := if folder.processedPath == "" then folder.inbox + "/processed" else folder.processedPath;
          var failed := if folder.failedPath == "" then folder.inbox + "/failed" else folder.failedPath;
          var place := Path(if run.passed then processed else failed, run.runId + "-" + name);
          place in after && after[place] == content
  }

  /** The first `k` files are delivered, the next one raised, everything else is where it was, and the report counts. */
  ghost predicate Delivered(
    folder: Folder, ingest: Ingest, before: Files, names: seq<string>, k: nat, after: Files, r: Option<Report>)
  {
    && k <= |names| && (r.None? <==> k < |names|)
    && (forall i :: 0 <= i < k ==> DeliveredFile(folder, ingest, before, names[i], after))
    && (k < |names| ==>
          Path(folder.inbox, names[k]) in before && ingest(names[k], before[Path(folder.inbox, names[k])]).Raised?)
    && (forall p :: p in before && !(p.dir == folder.inbox && p.name in names[..k]) ==>
          p in after && after[p] == before[p])
    && (r.Some? ==>
          && r.value.discovered == k && |r.value.runIds| == k
          && r.value.processed == Count(folder, ingest, before, names, k, true)
          && r.value.rejected == Count(folder, ingest, before, names, k, false)
          && forall i :: 0 <= i < k ==> LandedAs(folder, ingest, before, names[i], r.value.runIds[i]))
  }

  predicate LandedAs(folder: Folder, ingest: Ingest, before: Files, name: string, runId: string) {
    && Path(folder.inbox, name) in before
    && var run := ingest(name, before[Path(folder.inbox, name)]); run.Landed? && run.runId == runId
  }

  ghost predicate CountedTo(folder: Folder, ingest: Ingest, files: Files, names: seq<string>, n: nat, p: Progress) {
    && n <= |names| && |p.runIds| == n
    && p.processed == Count(folder, ingest, files, names, n, true)
    && p.rejected == Count(folder, ingest, files, names, n, false)
    && forall i :: 0 <= i < n ==> LandedAs(folder, ingest, files, names[i], p.runIds[i])
  }

  lemma CountOneMore(folder: Folder, ingest: Ingest, before: Files, names: seq<string>, k: nat, passed: bool)
    ensures Count(folder, ingest, before, names, k + 1, passed) ==
            Count(folder, ingest, before, names, k, passed)
            + Once(PassedAt(folder, ingest, before, names, k, passed))
  {
    var few := set i | 0 <= i < k && PassedAt(folder, ingest, before, names, i, passed);
    var more := set i | 0 <= i < k + 1 && PassedAt(folder, ingest, before, names, i, passed);
    if PassedAt(folder, ingest, before, names, k, passed) {
      assert more == few + {k};
    } else {
      assert more == few;
    }
  }

  lemma {:induction false} CountsAreExact(folder: Folder, ingest: Ingest, files: Files, names: seq<string>, n: nat)
    requires Distinct(names) && forall m :: m in names ==> Path(folder.inbox, m) in files
    requires n <= Reached(folder, ingest, files, names)
    requires AllFree(folder, ingest, files, names, Reached(folder, ingest, files, names))
    ensures CountedTo(folder, ingest, files, names, n, After(folder, ingest, files, names[..n]))
    decreases n
  {
    if n == 0 {
    } else {
      var k := n - 1;
      var before := After(folder, ingest, files, names[..k]);
      CountsAreExact(folder, ingest, files, names, k);
      ReachedFrontIsRearranged(folder, ingest, files, names, k);
      NextIsNew(names, k);
      Stays(folder, ingest, files, names[..k], before.files, names[k]);
      ReachedOfPrefix(folder, ingest, files, names, n);
      AfterOneMore(folder, ingest, files, names, k);
      CountNext(folder, ingest, files, names, k, before);
    }
  }

  lemma CountNext(folder: Folder, ingest: Ingest, files: Files, names: seq<string>, k: nat, p: Progress)
    requires k < |names| && CountedTo(folder, ingest, files, names, k, p) && !p.raised
    requires RunFor(folder, ingest, files, names[k]).Landed?
    requires var source := Path(folder.inbox, names[k]);
             source in files && source in p.files && p.files[source] == files[source]
    ensures CountedTo(folder, ingest, files, names, k + 1, Next(folder, ingest, p, names[k]))
  {
    CountOneMore(folder, ingest, files, names, k, true);
    CountOneMore(folder, ingest, files, names, k, false);
  }

  /** Behind the first file that raises nothing happens any more. */
  lemma {:induction false} NothingAfterRaising(folder: Folder, ingest: Ingest, files: Files, names: seq<string>)
    requires Distinct(names) && forall m :: m in names ==> Path(folder.inbox, m) in files
    requires AllFree(folder, ingest, files, names, Reached(folder, ingest, files, names))
    ensures var k := Reached(folder, ingest, files, names);
            var p, q := After(folder, ingest, files, names), After(folder, ingest, files, names[..k]);
            p.processed == q.processed && p.rejected == q.rejected && p.runIds == q.runIds
    ensures var k := Reached(folder, ingest, files, names);
            k < |names| ==> RunFor(folder, ingest, files, names[k]).Raised?
    decreases |names|
  {
    if names == [] {
    } else {
      var n, front := |names| - 1, names[..|names| - 1];
      var k := Reached(folder, ingest, files, front);
      SplitsDistinct(names, n, names[n]);
      assert forall m :: m in front ==> m in names;
      assert front[..k] == names[..k];
      if k < n {
        FreeForFewer(folder, ingest, files, names, n, k);
        NothingAfterRaising(folder, ingest, files, front);
        FreeDestinationsLoseNothing(folder, ingest, files, front);
      } else if RunFor(folder, ingest, files, names[n]).Landed? {
        assert names[..n + 1] == names;
      } else {
        FreeForFewer(folder, ingest, files, names, n, k);
        PrefixIsRearranged(folder, ingest, files, front);
        Stays(folder, ingest, files, front, After(folder, ingest, files, front).files, names[n]);
      }
    }
  }

  /** When no file is lost, each one is where it should be, and the report says how many there are of each kind. */
  lemma {:induction false} FilesAreDelivered(folder: Folder, ingest: Ingest, files: Files, names: seq<string>)
    requires Distinct(names) && forall m :: m in names ==> Path(folder.inbox, m) in files
    ensures var p := After(folder, ingest, files, names);
            var r := if p.raised then None else Some(Report(p.discovered, p.processed, p.rejected, p.runIds));
            |p.files| == |files| ==>
              Delivered(folder, ingest, files, names, Reached(folder, ingest, files, names), p.files, r)
    ensures forall length: nat :: FreshRunIds(folder, ingest, files, names, length) ==>
              |After(folder, ingest, files, names).files| == |files|
  {
    var p, k := After(folder, ingest, files, names), Reached(folder, ingest, files, names);
    forall length: nat | FreshRunIds(folder, ingest, files, names, length) ensures |p.files| == |files| {
      NoFileIsLost(folder, ingest, files, names, length);
    }
    NothingIsLostExactlyWhenDestinationsAreFree(folder, ingest, files, names);
    if |p.files| == |files| {
      FreeDestinationsLoseNothing(folder, ingest, files, names);
      ReachedLanded(folder, ingest, files, names);
      CountsAreExact(folder, ingest, files, names, k);
      NothingAfterRaising(folder, ingest, files, names);
      DeliveredFiles(folder, ingest, files, names, k, p.files);
    }
  }

  lemma DeliveredFiles(
    folder: Folder, ingest: Ingest, files: Files, names: seq<string>, k: nat, after: Files)
    requires k <= |names| && forall m :: m in names ==> Path(folder.inbox, m) in files
    requires forall n :: n in names[..k] ==> RunFor(folder, ingest, files, n).Landed?
    requires Rearranged(files, Homes(folder, ingest, files, names[..k]), after)
    ensures forall i :: 0 <= i < k ==> DeliveredFile(folder, ingest, files, names[i], after)
    ensures forall p :: p in files && !(p.dir == folder.inbox && p.name in names[..k]) ==>
              p in after && after[p] == files[p]
  {
    var homes := Homes(folder, ingest, files, names[..k]);
    forall i | 0 <= i < k ensures DeliveredFile(folder, ingest, files, names[i], after) {
      var p := Path(folder.inbox, names[i]);
      assert names[i] in names[..k] && names[i] in names;
      assert homes[p] == Goal(folder, ingest, files, names[i]);
    }
    forall p | p in files && !(p.dir == folder.inbox && p.name in names[..k])
      ensures p in after && after[p] == files[p]
    {
      assert homes[p] == p;
    }
  }

  lemma Stays(folder: Folder, ingest: Ingest, files: Files, done: seq<string>, moved: Files, name: string)
    requires Rearranged(files, Homes(folder, ingest, files, done), moved)
    requires Path(folder.inbox, name) in files && name !in done
    ensures Path(folder.inbox, name) in moved && moved[Path(folder.inbox, name)] == files[Path(folder.inbox, name)]
  {
    assert Homes(folder, ingest, files, done)[Path(folder.inbox, name)] == Path(folder.inbox, name);
  }

  lemma {:induction false} ReachedLanded(folder: Folder, ingest: Ingest, files: Files, names: seq<string>)
    ensures forall n :: n in names[..Reached(folder, ingest, files, names)] ==> RunFor(folder, ingest, files, n).Landed?
    decreases |names|
  {
    if names == [] {
    } else {
      var n := |names| - 1;
      ReachedLanded(folder, ingest, files, names[..n]);
      var k := Reached(folder, ingest, files, names[..n]);
      assert names[..k] == names[..n][..k];
      if k == n { assert names[..n + 1] == names[..n] + [names[n]]; }
    }
  }

  /** What the next call finds waiting: nothing after a normal return, else the files from the one that raised on. */
  lemma NextCallFindsTheRest(folder: Folder, ingest: Ingest, files: Files, names: seq<string>, length: nat)
    requires Distinct(names) && forall n :: n in names <==> folder.Waiting(files, n)
    requires FreshRunIds(folder, ingest, files, names, length)
    requires folder.ProcessedDir() != folder.inbox && folder.FailedDir() != folder.inbox
    ensures forall n :: folder.Waiting(After(folder, ingest, files, names).files, n) <==>
              n in names[Reached(folder, ingest, files, names)..]
  {
    var p, k := After(folder, ingest, files, names), Reached(folder, ingest, files, names);
    NoFileIsLost(folder, ingest, files, names, length);
    ReachedLanded(folder, ingest, files, names);
    forall n ensures folder.Waiting(p.files, n) <==> n in names[k..] {
      SplitsDistinct(names, k, n);
      WaitingExactlyWhenNotMoved(folder, ingest, files, names[..k], p.files, n);
    }
  }

  lemma WaitingExactlyWhenNotMoved(
    folder: Folder, ingest: Ingest, files: Files, done: seq<string>, moved: Files, n: string)
    requires Rearranged(files, Homes(folder, ingest, files, done), moved)
    requires forall m :: m in done ==> RunFor(folder, ingest, files, m).Landed?
    requires folder.ProcessedDir() != folder.inbox && folder.FailedDir() != folder.inbox
    ensures folder.Waiting(moved, n) <==> folder.Waiting(files, n) && n !in done
  {
    var homes, path := Homes(folder, ingest, files, done), Path(folder.inbox, n);
    if folder.Waiting(moved, n) {
      var q :| q in files && homes[q] == path;
    }
    if folder.Waiting(files, n) && n !in done { Stays(folder, ingest, files, done, moved, n); }
  }

  lemma SplitsDistinct(names: seq<string>, k: nat, n: string)
    requires Distinct(names) && k <= |names|
    ensures n in names[k..] <==> n in names && n !in names[..k]
  {
    if n in names[k..] {
      var i :| 0 <= i < |names| - k && names[k..][i] == n;
      assert names[k + i] == n;
    }
    assert names == names[..k] + names[k..];
  }

  /** Without one length for all, two different files with different runs can meet: one of them is lost. */
  lemma VaryingRunIdsLoseAFile(folder: Folder, content: string)
    requires folder.matches("b-c") && folder.matches("c")
    ensures var files: Files := map[Path(folder.inbox, "b-c") := content, Path(folder.inbox, "c") := content];
            var ingest: Ingest := (name, _) => Landed(if name == "c" then "a-b" else "a", true);
            var p := After(folder, ingest, files, ["b-c", "c"]);
            RunFor(folder, ingest, files, "c") != RunFor(folder, ingest, files, "b-c")
            && !p.raised && p.processed == 2 && (forall f :: f in p.files ==> f == folder.Destination("a", true, "b-c"))
  {
    var files: Files := map[Path(folder.inbox, "b-c") := content, Path(folder.inbox, "c") := content];
    var ingest: Ingest := (name, _) => Landed(if name == "c" then "a-b" else "a", true);
    var names := ["b-c", "c"];
    assert names[..1] == ["b-c"] && names[..1][..0] == [];
    assert "a" + "-" + "b-c" == "a-b" + "-" + "c";
    var one := After(folder, ingest, files, ["b-c"]);
    assert one == Next(folder, ingest, After(folder, ingest, files, []), "b-c");
    assert After(folder, ingest, files, names) == Next(folder, ingest, one, "c");
  }
}
