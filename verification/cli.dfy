/**
 * The commands of the packaged client (tsweb_py/cli.py) that decide
 * something: the two polling loops of `watch_submission` and the choice of
 * problem and compiler in `submit`.
 *
 * What the site answers is given up front: `obs` lists, in order, the
 * submissions each poll fetches; a `Session` holds the answers `submit`
 * receives.
 */
module Cli {
  import opened Wrappers
  import opened Text
  import opened Models
  import opened Json
  import opened Paths
  import opened Polling
  import Client
  import Global
  import Package = PackageLocalConfig
  import Root = RootLocalConfig

  // ---------------------------------------------------------------------------
  // watch_submission

  /** The normal loop: `no_change_count` counts repeats of `last_result` and is reset by a change. */
  method PollNormal(obs: seq<seq<Submission>>, id: string) returns (outcome: WatchOutcome)
    ensures outcome == Watch(obs, id, Normal)
  {
    var pollCount := 0;
    var lastResult: Option<string> := None;
    var noChangeCount := 0;
    while true
      invariant pollCount <= |obs|
      invariant RunFrom(obs, id, ExitRule(Normal), pollCount) == RunFrom(obs, id, ExitRule(Normal), 0)
      invariant pollCount == 0 ==> lastResult.None?
      invariant pollCount > 0 ==> lastResult == Some(History(obs, id, pollCount)[pollCount - 1])
      invariant pollCount > 0 ==> noChangeCount == NoChangeCount(History(obs, id, pollCount), Normal)
      decreases |obs| - pollCount
    {
      if pollCount == |obs| {
        WatchResumed(obs, id, Normal, pollCount);
        return Unfinished(pollCount);
      }
      pollCount := pollCount + 1;
      var submissions := obs[pollCount - 1];
      var current := FindTracked(submissions, id);
      if current.None? {
        WatchResumed(obs, id, Normal, pollCount - 1);
        return NotFound(pollCount);
      }
      var result := current.value.result;
      ghost var count := noChangeCount;
      ghost var last := lastResult;

      if Some(result) == lastResult {
        noChangeCount := noChangeCount + 1;
      } else {
        noChangeCount := 0;
        lastResult := Some(result);
      }
      NormalCount(obs, id, pollCount - 1, last, count, current.value, noChangeCount);
      PollExit(obs, id, Normal, pollCount - 1, current.value, noChangeCount);

      if !IsPending(result) {
        return Final(current.value, pollCount);
      }
      if IsNo(result) && noChangeCount >= MaxNoChange {
        return Stale(current.value, pollCount);
      }
    }
  }

  /**
   * The debug loop: a change resets `no_change_count` (once there is a
   * previous verdict), and every poll then counts, the first one included.
   */
  method PollDebug(obs: seq<seq<Submission>>, id: string) returns (outcome: WatchOutcome)
    ensures outcome == Watch(obs, id, Debug)
  {
    var pollCount := 0;
    var lastResult: Option<string> := None;
    var noChangeCount := 0;
    while true
      invariant pollCount <= |obs|
      invariant RunFrom(obs, id, ExitRule(Debug), pollCount) == RunFrom(obs, id, ExitRule(Debug), 0)
      invariant pollCount == 0 ==> lastResult.None? && noChangeCount == 0
      invariant pollCount > 0 ==> lastResult == Some(History(obs, id, pollCount)[pollCount - 1])
      invariant pollCount > 0 ==> noChangeCount == NoChangeCount(History(obs, id, pollCount), Debug)
      decreases |obs| - pollCount
    {
      if pollCount == |obs| {
        WatchResumed(obs, id, Debug, pollCount);
        return Unfinished(pollCount);
      }
      pollCount := pollCount + 1;
      var submissions := obs[pollCount - 1];
      var current := FindTracked(submissions, id);
      if current.None? {
        WatchResumed(obs, id, Debug, pollCount - 1);
        return NotFound(pollCount);
      }
      var result := current.value.result;
      ghost var count := noChangeCount;
      ghost var last := lastResult;

      if pollCount <= 3 || Some(result) != lastResult {
        if Some(result) != lastResult && lastResult.Some? {
          noChangeCount := 0;
        }
        lastResult := Some(result);
      }
      if Some(result) == lastResult {
        noChangeCount := noChangeCount + 1;
      }
      DebugCount(obs, id, pollCount - 1, last, count, current.value, noChangeCount);
      PollExit(obs, id, Debug, pollCount - 1, current.value, noChangeCount);

      if !IsPending(result) {
        return Final(current.value, pollCount);
      }
      if IsNo(result) && noChangeCount >= MaxNoChange {
        return Stale(current.value, pollCount);
      }
    }
  }

  /**
   * The normal loop's counter after a poll that saw `current`: with `count`
   * and `last` the counter and verdict before it, `count + 1` on a repeat and
   * 0 on a change is the length of the run of equal verdicts, less one.
   */
  lemma {:induction false} NormalCount(obs: seq<seq<Submission>>, id: string, n: nat, last: Option<string>, count: int,
                                       current: Submission, next: int)
    requires n < |obs| && FindTracked(obs[n], id) == Some(current)
    requires n == 0 ==> last.None?
    requires n > 0 ==> last == Some(History(obs, id, n)[n - 1]) && count == NoChangeCount(History(obs, id, n), Normal)
    requires next == if Some(current.result) == last then count + 1 else 0
    ensures var h := History(obs, id, n + 1);
            |h| == n + 1 && h[n] == current.result && next == NoChangeCount(h, Normal)
  {
    HistoryExtends(obs, id, n);
    RunLengthSnoc(History(obs, id, n), current.result);
  }

  /**
   * The debug loop's counter after a poll: 1 on a change of verdict, and
   * `count + 1` otherwise, the first poll included (the counter starts at
   * 0); this is the length of the run of equal verdicts.
   */
  lemma {:induction false} DebugCount(obs: seq<seq<Submission>>, id: string, n: nat, last: Option<string>, count: int,
                                      current: Submission, next: int)
    requires n < |obs| && FindTracked(obs[n], id) == Some(current)
    requires n == 0 ==> last.None? && count == 0
    requires n > 0 ==> last == Some(History(obs, id, n)[n - 1]) && count == NoChangeCount(History(obs, id, n), Debug)
    requires next == if Some(current.result) != last && last.Some? then 1 else count + 1
    ensures var h := History(obs, id, n + 1);
            |h| == n + 1 && h[n] == current.result && next == NoChangeCount(h, Debug)
  {
    HistoryExtends(obs, id, n);
    RunLengthSnoc(History(obs, id, n), current.result);
  }

  /**
   * `watch_submission(client, debug)`: track the newest submission of the
   * first fetch and poll it; `feedbackFor` is the id whose feedback is then
   * fetched, if the loop got that far.
   */
  method WatchSubmission(initial: seq<Submission>, obs: seq<seq<Submission>>, debug: bool)
    returns (watched: WatchResult, feedbackFor: Option<string>)
    ensures watched == WatchResultOf(initial, obs, if debug then Debug else Normal)
    ensures feedbackFor == FeedbackFor(watched)
  {
    if initial == [] {
      return NoSubmissions, None;
    }
    var latest := initial[0];
    var submissionId := latest.id;
    var outcome: WatchOutcome;
    if debug {
      outcome := PollDebug(obs, submissionId);
    } else {
      outcome := PollNormal(obs, submissionId);
    }
    watched := Tracked(submissionId, outcome);
    if outcome.NotFound? || outcome.Unfinished? {
      return watched, None;
    }
    feedbackFor := Some(submissionId);
  }

  // ---------------------------------------------------------------------------
  // submit

  /** What the disk, the site and the login prompt answer during one `submit`. */
  datatype Session = Session(
    globalFile: Option<FileBody>,               // the global config file `TestSysClient()` loads; `None` when absent
    mainPage: Option<string>,                   // the main page `auto_login` fetches; `None` when the fetch raised
    reloginOk: bool,                            // what `auto_login`'s own `login` with the saved credentials returns
    loginOk: bool,                              // what the interactive `login` returns
    compilerPage: Option<seq<Client.SelectOption>>,  // the compiler options of the submit page
    uploadResponse: Option<string>,             // the upload's response text; `None` when it raised
    latest: seq<Submission>,                    // the first fetch of `watch_submission`
    polls: seq<seq<Submission>>)                // the fetches of its loop

  /** The requests `submit` makes of the site, after `auto_login`. */
  datatype Request = Login | FetchCompilers | Upload(problemId: string, compilerId: string)

  datatype SubmitOutcome =
    | ClientRaised          // `TestSysClient()` raised: the global config is not UTF-8 or not an object
    | ClientOutsideModel    // the global config holds a value of a type not modelled
    | NotLoggedIn
    | NoCompilers
    | ConfigRaised          // the local config is not UTF-8 or holds JSON that is not an object
    | ConfigOutsideModel    // the local config holds a value of a type not modelled
    | InvalidIndex(index: int)
    | UploadRejected(problem: string, compiler: Compiler)
    | Submitted(problem: string, compiler: Compiler, watched: Option<WatchResult>, feedbackFor: Option<string>)

  /**
   * How `auto_login` goes once `TestSysClient()` has loaded the global
   * config; `None` when that load does not return.
   */
  function AutoLoginOf(session: Session): Option<Client.AutoLoginPath> {
    match Global.Load(session.globalFile)
    case Loaded(config) => Some(Client.AutoLogin(config, session.mainPage, session.reloginOk))
    case _ => None
  }

  /** The problem id: the one given, or the file name's stem. */
  function ChosenProblem(fileName: string, problem: Option<string>): string {
    if problem.Some? then problem.value else Stem(fileName)
  }

  /**
   * The compiler index: the one given, else the loaded `default_lang`, else
   * 0 when there is no config; `None` when loading does not return.
   */
  function ChosenIndex(lang: Option<int>, config: LoadOutcome<Package.LocalConfig>): Option<int> {
    if lang.Some? then lang
    else match config
      case Loaded(c) => Some(c.defaultLang)
      case NoConfig => Some(0)
      case _ => None
  }

  /** The login request made when `auto_login` did not log in. */
  function LoginRequests(autoLogin: Client.AutoLoginPath): seq<Request> {
    if Client.LoggedIn(autoLogin) then [] else [Login]
  }

  /** An outcome in which the solution was uploaded. */
  predicate UploadMade(outcome: SubmitOutcome) {
    outcome.UploadRejected? || outcome.Submitted?
  }

  /**
   * `submit(file, problem, lang, watch, debug)` for a file named `fileName`,
   * run from `cwd`: log in if needed, fetch the compilers, pick the problem
   * and the compiler, upload, and watch.
   */
  method Submit(fileName: string, problem: Option<string>, lang: Option<int>, watch: bool, debug: bool,
                session: Session, fs: FileSystem, cwd: Path)
    returns (outcome: SubmitOutcome, sent: seq<Request>)
    ensures outcome.ClientRaised? <==> Global.Load(session.globalFile).Raises?
    ensures outcome.ClientOutsideModel? <==> Global.Load(session.globalFile).Unmodelled?
    ensures outcome.ClientRaised? || outcome.ClientOutsideModel? ==> sent == []
    ensures outcome.NotLoggedIn? <==>
              AutoLoginOf(session).Some? && !Client.LoggedIn(AutoLoginOf(session).value) && !session.loginOk
    ensures outcome.NoCompilers? <==>
              AutoLoginOf(session).Some? && !outcome.NotLoggedIn? && Client.CompilersOf(session.compilerPage) == []
    ensures outcome.ConfigRaised? <==>
              AutoLoginOf(session).Some? && !outcome.NotLoggedIn? && !outcome.NoCompilers?
              && lang.None? && Package.LoadAt(fs, cwd).Raises?
    ensures outcome.ConfigOutsideModel? <==>
              AutoLoginOf(session).Some? && !outcome.NotLoggedIn? && !outcome.NoCompilers?
              && lang.None? && Package.LoadAt(fs, cwd).Unmodelled?
    ensures outcome.ConfigRaised? || outcome.ConfigOutsideModel? ==>
              lang.None? && ChosenIndex(lang, Package.LoadAt(fs, cwd)).None?
    ensures outcome.InvalidIndex? ==>
              Some(outcome.index) == ChosenIndex(lang, Package.LoadAt(fs, cwd))
              && !(0 <= outcome.index < |Client.CompilersOf(session.compilerPage)|)
    ensures UploadMade(outcome) ==>
              var compilers := Client.CompilersOf(session.compilerPage);
              var index := ChosenIndex(lang, Package.LoadAt(fs, cwd));
              index.Some? && 0 <= index.value < |compilers|
              && outcome.problem == ChosenProblem(fileName, problem)
              && outcome.compiler == compilers[index.value]
    ensures AutoLoginOf(session).Some? ==>
              sent == LoginRequests(AutoLoginOf(session).value)
                    + (if outcome.NotLoggedIn? then [] else [FetchCompilers])
                    + (if UploadMade(outcome) then [Upload(outcome.problem, outcome.compiler.compilerId)] else [])
    ensures UploadMade(outcome) ==> (outcome.Submitted? <==> Client.UploadSucceeded(session.uploadResponse))
    ensures outcome.Submitted? ==>
              var mode := if debug then Debug else Normal;
              outcome.watched == (if watch then Some(WatchResultOf(session.latest, session.polls, mode)) else None)
              && outcome.feedbackFor == (if watch then FeedbackFor(WatchResultOf(session.latest, session.polls, mode)) else None)
  {
    sent := [];
    var global := Global.Load(session.globalFile);
    if global.Raises? {
      return ClientRaised, sent;
    }
    if !global.Loaded? {
      return ClientOutsideModel, sent;
    }
    var autoLogin := Client.AutoLogin(global.config, session.mainPage, session.reloginOk);
    assert AutoLoginOf(session) == Some(autoLogin);
    if !Client.LoggedIn(autoLogin) {
      sent := sent + [Login];
      if !session.loginOk {
        return NotLoggedIn, sent;
      }
    }
    assert sent == LoginRequests(autoLogin);

    var problemId := if problem.None? then Stem(fileName) else problem.value;

    sent := sent + [FetchCompilers];
    var compilers := Client.GetCompilers(session.compilerPage);
    if compilers == [] {
      return NoCompilers, sent;
    }

    var index: int;
    if lang.None? {
      var config := Package.Load(fs, cwd);
      match config {
        case Loaded(c) => index := c.defaultLang;
        case NoConfig => index := 0;
        case Raises => return ConfigRaised, sent;
        case Unmodelled => return ConfigOutsideModel, sent;
      }
    } else {
      index := lang.value;
    }

    if !(0 <= index < |compilers|) {
      return InvalidIndex(index), sent;
    }
    var compiler := compilers[index];

    sent := sent + [Upload(problemId, compiler.compilerId)];
    if !Client.UploadSucceeded(session.uploadResponse) {
      return UploadRejected(problemId, compiler), sent;
    }

    if watch {
      var watched, feedbackFor := WatchSubmission(session.latest, session.polls, debug);
      return Submitted(problemId, compiler, Some(watched), feedbackFor), sent;
    }
    return Submitted(problemId, compiler, None, None), sent;
  }

  /** Without a config file anywhere up to the root, the default index is 0. */
  lemma {:induction false} NoConfigMeansFirstCompiler(fs: FileSystem, cwd: Path)
    requires forall m :: 0 <= m <= |cwd| ==> ConfigIn(cwd[..m]) !in fs
    ensures ChosenIndex(None, Package.LoadAt(fs, cwd)) == Some(0)
  {
    Package.NoFileGivesNone(fs, cwd);
  }

  /**
   * In a directory where the older client saved its config, the packaged
   * client defaults to the compiler index that config holds.
   */
  lemma {:induction false} DefaultFromOlderConfig(fs: FileSystem, cwd: Path, d: Root.ConfigData)
    ensures ChosenIndex(None, Package.LoadAt(fs[SavePath(cwd) := Parsed(Root.Encode(d))], cwd)) == Some(d.defaultLang)
  {
    var written := fs[SavePath(cwd) := Parsed(Root.Encode(d))];
    assert ClosestConfig(cwd, written.Keys) == Some(ConfigIn(cwd)) by {
      assert cwd[..|cwd|] == cwd;
    }
    Package.ReadsOlderFile(d);
  }
}
