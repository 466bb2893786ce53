/**
 * The commands of the older client (cli.py) that decide something: its
 * polling loop, which has no stale exit, the choice and validation in
 * `submit`, and the config updates of `local parse` and `local set-compiler`.
 *
 * The older client's own `client/client.py` is not part of this model: what
 * its calls return is given as inputs.
 */
module RootCli {
  import opened Wrappers
  import opened Text
  import opened Models
  import opened Json
  import opened Paths
  import opened Polling
  import Client
  import Cli
  import Terminal
  import opened RootLocalConfig

  // ---------------------------------------------------------------------------
  // watch_submission

  /** The loop: poll until the tracked submission is missing or its verdict leaves the pending set. */
  method PollLegacy(obs: seq<seq<Submission>>, id: string) returns (outcome: WatchOutcome)
    ensures outcome == Watch(obs, id, Legacy)
  {
    var pollCount := 0;
    while true
      invariant pollCount <= |obs|
      invariant RunFrom(obs, id, ExitRule(Legacy), pollCount) == RunFrom(obs, id, ExitRule(Legacy), 0)
      decreases |obs| - pollCount
    {
      if pollCount == |obs| {
        WatchResumed(obs, id, Legacy, pollCount);
        return Unfinished(pollCount);
      }
      var submissions := obs[pollCount];
      var current := FindTracked(submissions, id);
      if current.None? {
        WatchResumed(obs, id, Legacy, pollCount);
        return NotFound(pollCount + 1);
      }
      LegacyExit(obs, id, pollCount, current.value);
      pollCount := pollCount + 1;

      if !IsPending(current.value.result) {
        return Final(current.value, pollCount);
      }
    }
  }

  /** The older loop's only exit: a verdict outside the pending list ends the watch as final. */
  lemma {:induction false} LegacyExit(obs: seq<seq<Submission>>, id: string, n: nat, current: Submission)
    requires n < |obs| && FindTracked(obs[n], id) == Some(current)
    requires RunFrom(obs, id, ExitRule(Legacy), n) == RunFrom(obs, id, ExitRule(Legacy), 0)
    ensures !IsPending(current.result) ==> Watch(obs, id, Legacy) == Final(current, n + 1)
    ensures IsPending(current.result) ==>
              RunFrom(obs, id, ExitRule(Legacy), n + 1) == RunFrom(obs, id, ExitRule(Legacy), 0)
  {
    PollStep(obs, id, Legacy, n);
  }

  /** `watch_submission(client)`: the newest submission of the first fetch, polled; then its feedback. */
  method WatchSubmission(initial: seq<Submission>, obs: seq<seq<Submission>>)
    returns (watched: WatchResult, feedbackFor: Option<string>)
    ensures watched == WatchResultOf(initial, obs, Legacy)
    ensures feedbackFor == FeedbackFor(watched)
  {
    if initial == [] {
      return NoSubmissions, None;
    }
    var latest := initial[0];
    var submissionId := latest.id;
    var outcome := PollLegacy(obs, submissionId);
    watched := Tracked(submissionId, outcome);
    if outcome.NotFound? || outcome.Unfinished? {
      return watched, None;
    }
    feedbackFor := Some(submissionId);
  }

  /**
   * The older loop ends only on a missing submission or a final verdict, and
   * asks for feedback only after a final verdict.
   */
  lemma {:induction false} LegacyEndsOnlyOnVerdict(initial: seq<Submission>, obs: seq<seq<Submission>>)
    ensures var w := WatchResultOf(initial, obs, Legacy);
            w.Tracked? ==> !w.outcome.Stale? && (w.outcome.Final? ==> !IsPending(w.outcome.last.result))
    ensures var w := WatchResultOf(initial, obs, Legacy);
            FeedbackFor(w).Some? <==> w.Tracked? && w.outcome.Final?
  {
    if initial != [] {
      WatchCharacterized(obs, initial[0].id, Legacy);
    }
  }

  // ---------------------------------------------------------------------------
  // submit

  /** What the site and the login prompt answer during one `submit`. */
  datatype Session = Session(
    autoLogin: Client.AutoLoginPath,   // how `auto_login` went
    loginOk: bool,                     // what the interactive `login` returns
    uploadResponse: Option<string>,    // the upload's response text; `None` when it raised
    latest: seq<Submission>,           // the first fetch of `watch_submission`
    polls: seq<seq<Submission>>)       // the fetches of its loop

  /** The requests `submit` makes of the site, after `auto_login`. */
  datatype Request = Login | Upload(problemId: string, compilerId: string)

  datatype SubmitOutcome =
    | NoLocalConfig
    | ConfigRaised          // the config file is not UTF-8 and `load` raises
    | ConfigOutsideModel    // the config file holds a value of a type not modelled
    | InvalidIndex(index: int)
    | NotLoggedIn
    | UploadRejected(problem: string, compiler: Compiler)
    | Submitted(problem: string, compiler: Compiler, watched: Option<WatchResult>, feedbackFor: Option<string>)

  /** The login request made when `auto_login` did not log in. */
  function LoginRequests(autoLogin: Client.AutoLoginPath): seq<Request> {
    if Client.LoggedIn(autoLogin) then [] else [Login]
  }

  predicate UploadMade(outcome: SubmitOutcome) {
    outcome.UploadRejected? || outcome.Submitted?
  }

  /** `any(p.problem_id == problem for p in config.problems)`. */
  predicate Listed(problems: seq<Problem>, problemId: string) {
    exists p :: p in problems && p.problemId == problemId
  }

  /**
   * `submit(file, problem, lang, watch)` for a file named `fileName`, run
   * from `cwd`: everything is taken from the local config and checked before
   * the client logs in; `warned` tells whether the problem was missing from
   * the config.
   */
  method Submit(fileName: string, problem: Option<string>, lang: Option<int>, watch: bool,
                session: Session, fs: FileSystem, cwd: Path)
    returns (outcome: SubmitOutcome, sent: seq<Request>, warned: bool)
    ensures outcome.NoLocalConfig? <==> LoadAt(fs, cwd).NoConfig?
    ensures outcome.ConfigRaised? <==> LoadAt(fs, cwd).Raises?
    ensures outcome.ConfigOutsideModel? <==> LoadAt(fs, cwd).Unmodelled?
    ensures outcome.NoLocalConfig? || outcome.ConfigRaised? || outcome.ConfigOutsideModel? ==> sent == [] && !warned
    ensures outcome.InvalidIndex? ==> sent == []
    ensures LoadAt(fs, cwd).Loaded? ==>
              var d := LoadAt(fs, cwd).config;
              var index := if lang.Some? then lang.value else d.defaultLang;
              && (outcome.InvalidIndex? <==> !(0 <= index < |d.compilers|))
              && (outcome.InvalidIndex? ==> outcome.index == index)
              && (warned <==> !Listed(d.problems, Cli.ChosenProblem(fileName, problem)))
              && (outcome.NotLoggedIn? <==> 0 <= index < |d.compilers| && !Client.LoggedIn(session.autoLogin) && !session.loginOk)
              && (UploadMade(outcome) <==>
                    0 <= index < |d.compilers| && (Client.LoggedIn(session.autoLogin) || session.loginOk))
              && (UploadMade(outcome) ==>
                    outcome.problem == Cli.ChosenProblem(fileName, problem)
                    && outcome.compiler == d.compilers[index])
    ensures sent == (if outcome.NotLoggedIn? || UploadMade(outcome) then LoginRequests(session.autoLogin) else [])
                    + (if UploadMade(outcome) then [Upload(outcome.problem, outcome.compiler.compilerId)] else [])
    ensures UploadMade(outcome) ==> (outcome.Submitted? <==> Client.UploadSucceeded(session.uploadResponse))
    ensures outcome.Submitted? ==>
              outcome.watched == (if watch then Some(WatchResultOf(session.latest, session.polls, Legacy)) else None)
              && outcome.feedbackFor == (if watch then FeedbackFor(WatchResultOf(session.latest, session.polls, Legacy)) else None)
  {
    sent := [];
    warned := false;
    var config := Load(fs, cwd);
    if config.NoConfig? {
      return NoLocalConfig, sent, warned;
    }
    if config.Raises? {
      return ConfigRaised, sent, warned;
    }
    if !config.Loaded? {
      return ConfigOutsideModel, sent, warned;
    }
    var d := config.config;

    var problemId := if problem.None? then Stem(fileName) else problem.value;

    var problemExists := exists p :: p in d.problems && p.problemId == problemId;

    warned := !problemExists;

    var index := if lang.None? then d.defaultLang else lang.value;
    if !(0 <= index < |d.compilers|) {
      return InvalidIndex(index), sent, warned;
    }
    var compiler := d.compilers[index];

    if !Client.LoggedIn(session.autoLogin) {
      sent := sent + [Login];
      if !session.loginOk {
        return NotLoggedIn, sent, warned;
      }
    }
    assert sent == LoginRequests(session.autoLogin);

    sent := sent + [Upload(problemId, compiler.compilerId)];
    if !Client.UploadSucceeded(session.uploadResponse) {
      return UploadRejected(problemId, compiler), sent, warned;
    }

    if watch {
      var watched, feedbackFor := WatchSubmission(session.latest, session.polls);
      return Submitted(problemId, compiler, Some(watched), feedbackFor), sent, warned;
    }
    return Submitted(problemId, compiler, None, None), sent, warned;
  }

  // ---------------------------------------------------------------------------
  // local parse

  datatype ParseOutcome =
    | ParseNoConfig
    | ParseConfigRaised     // the config file is not UTF-8 and `load` raises
    | ParseOutsideModel
    | ParseNotLoggedIn
    | NoProblems
    | NoCompilers
    | ListsSaved

  /**
   * `local parse` from `cwd`, with the lists `get_problems` and
   * `get_compilers` return: both replace the loaded ones, and the config is
   * saved only when neither is empty.
   */
  method LocalParse(fs: FileSystem, cwd: Path, autoLogin: Client.AutoLoginPath, loginOk: bool,
                    problems: seq<Problem>, compilers: seq<Compiler>)
    returns (outcome: ParseOutcome, written: FileSystem)
    ensures outcome.ParseNoConfig? <==> LoadAt(fs, cwd).NoConfig?
    ensures outcome.ParseConfigRaised? <==> LoadAt(fs, cwd).Raises?
    ensures outcome.ParseOutsideModel? <==> LoadAt(fs, cwd).Unmodelled?
    ensures outcome.ParseNotLoggedIn? <==> LoadAt(fs, cwd).Loaded? && !Client.LoggedIn(autoLogin) && !loginOk
    ensures outcome.NoProblems? <==> LoadAt(fs, cwd).Loaded? && (Client.LoggedIn(autoLogin) || loginOk) && problems == []
    ensures outcome.NoCompilers? ==> problems != [] && compilers == []
    ensures outcome.ListsSaved? <==>
              LoadAt(fs, cwd).Loaded? && (Client.LoggedIn(autoLogin) || loginOk) && problems != [] && compilers != []
    ensures !outcome.ListsSaved? ==> written == fs
    ensures outcome.ListsSaved? ==>
              var saved := ConfigData(LoadAt(fs, cwd).config.defaultLang, problems, compilers);
              written == fs[SavePath(cwd) := FileBody.Parsed(Encode(saved))]
              && LoadAt(written, cwd) == Loaded(saved)
  {
    written := fs;
    var loaded := Load(fs, cwd);
    if loaded.NoConfig? {
      return ParseNoConfig, written;
    }
    if loaded.Raises? {
      return ParseConfigRaised, written;
    }
    if !loaded.Loaded? {
      return ParseOutsideModel, written;
    }
    var config := new LocalConfig.FromData(loaded.config);

    if !Client.LoggedIn(autoLogin) && !loginOk {
      return ParseNotLoggedIn, written;
    }

    config.problems := problems;
    config.compilers := compilers;

    if config.problems == [] {
      return NoProblems, written;
    }
    if config.compilers == [] {
      return NoCompilers, written;
    }
    written := config.Save(fs, cwd);
    return ListsSaved, written;
  }

  // ---------------------------------------------------------------------------
  // local set-compiler

  datatype SetCompilerOutcome =
    | SetNoConfig
    | SetConfigRaised    // the config file is not UTF-8 and `load` raises
    | SetOutsideModel
    | SetNoCompilers
    | NotChosen          // Ctrl-C or three invalid attempts: `choose_index` gave `None`
    | InputEnded         // the input ended and `EOFError` escaped the command
    | CompilerSet(index: nat)

  /**
   * `local set-compiler` from `cwd`, reading the answers to the prompt from
   * `attempts`: the chosen index becomes `default_lang` and is saved.
   */
  method LocalSetCompiler(fs: FileSystem, cwd: Path, attempts: seq<Terminal.Attempt>)
    returns (outcome: SetCompilerOutcome, written: FileSystem)
    ensures outcome.SetNoConfig? <==> LoadAt(fs, cwd).NoConfig?
    ensures outcome.SetConfigRaised? <==> LoadAt(fs, cwd).Raises?
    ensures outcome.SetOutsideModel? <==> LoadAt(fs, cwd).Unmodelled?
    ensures outcome.SetNoCompilers? <==> LoadAt(fs, cwd).Loaded? && LoadAt(fs, cwd).config.compilers == []
    ensures !outcome.CompilerSet? ==> written == fs
    ensures outcome.CompilerSet? ==>
              var d := LoadAt(fs, cwd).config;
              LoadAt(fs, cwd).Loaded? && outcome.index < |d.compilers|
              && written == fs[SavePath(cwd) := FileBody.Parsed(Encode(d.(defaultLang := outcome.index)))]
              && LoadAt(written, cwd) == Loaded(d.(defaultLang := outcome.index))
    ensures LoadAt(fs, cwd).Loaded? && LoadAt(fs, cwd).config.compilers != [] ==>
              var c := Terminal.Choose(|LoadAt(fs, cwd).config.compilers|, attempts, 3);
              && (outcome.CompilerSet? <==> c.Chosen?)
              && (outcome.CompilerSet? ==> outcome.index == c.index)
              && (outcome.InputEnded? <==> c.InputClosed?)
              && (outcome.NotChosen? <==> c.Cancelled? || c.TooManyAttempts?)
    ensures outcome.CompilerSet? ==>
              exists k :: 0 <= k < |attempts| && k < 3 && attempts[k].Entered?
                && Text.ParseInt(attempts[k].line) == Some(outcome.index as int)
  {
    written := fs;
    var loaded := Load(fs, cwd);
    if loaded.NoConfig? {
      return SetNoConfig, written;
    }
    if loaded.Raises? {
      return SetConfigRaised, written;
    }
    if !loaded.Loaded? {
      return SetOutsideModel, written;
    }
    var config := new LocalConfig.FromData(loaded.config);

    if config.compilers == [] {
      return SetNoCompilers, written;
    }

    var choice, used := Terminal.ChooseIndex(|config.compilers|, attempts, 3);
    if choice.InputClosed? {
      return InputEnded, written;
    }
    if !choice.Chosen? {
      return NotChosen, written;
    }
    var idx := choice.index;
    assert 0 <= used - 1 < |attempts| && used - 1 < 3 && attempts[used - 1].Entered?
           && Text.ParseInt(attempts[used - 1].line) == Some(idx as int);

    config.defaultLang := idx;
    written := config.Save(fs, cwd);
    return CompilerSet(idx), written;
  }

  /** After `local set-compiler`, the saved config's compiler is the one chosen. */
  lemma {:induction false} SetCompilerThenGet(fs: FileSystem, cwd: Path, d: ConfigData, idx: nat)
    requires LoadAt(fs, cwd) == Loaded(d) && idx < |d.compilers|
    ensures var reloaded := LoadAt(fs[SavePath(cwd) := FileBody.Parsed(Encode(d.(defaultLang := idx)))], cwd);
            reloaded.Loaded? && reloaded.config.compilers == d.compilers
            && 0 <= reloaded.config.defaultLang < |reloaded.config.compilers|
            && reloaded.config.compilers[reloaded.config.defaultLang] == d.compilers[idx]
  {
    SaveThenLoad(fs, cwd, d.(defaultLang := idx));
  }
}
