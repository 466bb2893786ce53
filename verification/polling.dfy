/**
 * What both `watch_submission` functions share (tsweb_py/cli.py and cli.py):
 * the pending verdicts, the lookup of the tracked submission in each fetched
 * list, and, as a reference definition, where a run of polls ends.
 *
 * The fetches are given as `obs`, the list of submissions each poll receives,
 * in order. A run that would need more polls than `obs` holds ends as
 * `Unfinished`: the source loop has no bound of its own.
 */
module Polling {
  import opened Wrappers
  import opened Text
  import opened Models
  import Terminal

  /** `MAX_NO_CHANGE`: polls without change after which a `NO` verdict is taken as final. */
  const MaxNoChange := 20

  /** The upper-cased verdicts that mean "not judged yet". */
  const PendingVerdicts: seq<string> := ["NO", "JUDGING", "PENDING", ""]

  predicate IsPending(result: string) {
    Upper(result) in PendingVerdicts
  }

  /** The verdict the stale exit waits on: `NO`, in any case. */
  predicate IsNo(result: string) {
    Upper(result) == "NO"
  }

  /** The pending verdicts are the ones shown in yellow, and the empty verdict. */
  lemma {:induction false} PendingMeansYellow(result: string)
    ensures IsPending(result) <==> result == "" || Terminal.ColourOf(result) == Some(Terminal.Yellow)
  {
    if Terminal.ColourOf(result).Some? && IsPending(result) {
      var c := Terminal.ColourOf(result).value;
      if Upper(result) != "" {
        Terminal.ColourClassesDisjoint(c, Terminal.Yellow, Upper(result));
      }
    }
  }

  /** `next((s for s in submissions if s.id == submission_id), None)`. */
  function FindTracked(subs: seq<Submission>, id: string): Option<Submission> {
    if |subs| == 0 then None
    else if subs[0].id == id then Some(subs[0])
    else FindTracked(subs[1..], id)
  }

  /** The lookup gives the first submission with the tracked id, and `None` only when there is none. */
  lemma {:induction false} FindTrackedIsFirstMatch(subs: seq<Submission>, id: string)
    ensures FindTracked(subs, id).None? <==> forall i :: 0 <= i < |subs| ==> subs[i].id != id
    ensures FindTracked(subs, id).Some? ==>
              exists i :: 0 <= i < |subs| && subs[i] == FindTracked(subs, id).value && subs[i].id == id
                && forall j :: 0 <= j < i ==> subs[j].id != id
  {
    if |subs| > 0 && subs[0].id != id {
      var rest := subs[1..];
      FindTrackedIsFirstMatch(rest, id);
      assert forall i :: 1 <= i < |subs| ==> rest[i - 1] == subs[i];
      if FindTracked(rest, id).Some? {
        var i :| 0 <= i < |rest| && rest[i] == FindTracked(rest, id).value && rest[i].id == id
                 && forall j :: 0 <= j < i ==> rest[j].id != id;
        assert subs[i + 1] == rest[i];
      }
    }
  }

  // ---------------------------------------------------------------------------
  // the verdict history

  /** The first `n` polls all found the tracked submission. */
  predicate Found(obs: seq<seq<Submission>>, id: string, n: nat) {
    n <= |obs| && forall k :: 0 <= k < n ==> FindTracked(obs[k], id).Some?
  }

  /** The verdict poll `k` saw, when it found the tracked submission. */
  function Verdict(obs: seq<seq<Submission>>, id: string, k: nat): string
    requires k < |obs|
  {
    match FindTracked(obs[k], id)
    case Some(current) => current.result
    case None => ""
  }

  /** The verdicts the first `n` polls saw, in order. */
  function History(obs: seq<seq<Submission>>, id: string, n: nat): (h: seq<string>)
    requires n <= |obs|
    ensures |h| == n
  {
    if n == 0 then [] else History(obs, id, n - 1) + [Verdict(obs, id, n - 1)]
  }

  lemma {:induction false} HistoryExtends(obs: seq<seq<Submission>>, id: string, n: nat)
    requires n < |obs| && FindTracked(obs[n], id).Some?
    ensures History(obs, id, n + 1) == History(obs, id, n) + [FindTracked(obs[n], id).value.result]
  {
  }

  lemma {:induction false} HistoryAt(obs: seq<seq<Submission>>, id: string, n: nat, k: nat)
    requires k < n <= |obs|
    ensures History(obs, id, n)[k] == Verdict(obs, id, k)
  {
    if k < n - 1 {
      HistoryAt(obs, id, n - 1, k);
    }
  }

  /** How many verdicts at the end of `h` are equal to the last one. */
  function RunLength(h: seq<string>): (r: nat)
    ensures |h| > 0 ==> 1 <= r <= |h|
    ensures |h| == 0 ==> r == 0
  {
    if |h| <= 1 then |h|
    else if h[|h| - 2] == h[|h| - 1] then RunLength(h[..|h| - 1]) + 1
    else 1
  }

  /** The run is exactly the maximal block of equal verdicts that ends the history. */
  lemma {:induction false} RunLengthMeaning(h: seq<string>)
    requires |h| > 0
    ensures forall i :: |h| - RunLength(h) <= i < |h| ==> h[i] == h[|h| - 1]
    ensures RunLength(h) < |h| ==> h[|h| - 1 - RunLength(h)] != h[|h| - 1]
  {
    if |h| > 1 && h[|h| - 2] == h[|h| - 1] {
      var init := h[..|h| - 1];
      RunLengthMeaning(init);
      assert forall i :: 0 <= i < |init| ==> init[i] == h[i];
    }
  }

  lemma {:induction false} RunLengthSnoc(h: seq<string>, v: string)
    ensures RunLength(h + [v]) == if |h| > 0 && h[|h| - 1] == v then RunLength(h) + 1 else 1
  {
    assert (h + [v])[..|h|] == h;
  }


  // ---------------------------------------------------------------------------
  // the loop, whatever its exit rule

  /** Where a run of polls ends, before its last poll is classified. */
  datatype LoopEnd =
    | Missing(polls: nat)                    // the tracked id was missing from a fetch
    | Stopped(last: Submission, polls: nat)  // the exit rule accepted the history
    | Running(polls: nat)                    // every given fetch was polled

  /**
   * The polling loop from poll `n` on: each poll looks up the tracked
   * submission and leaves on the first history the exit rule `stop` accepts.
   */
  function RunFrom(obs: seq<seq<Submission>>, id: string, stop: seq<string> -> bool, n: nat): LoopEnd
    requires n <= |obs|
    decreases |obs| - n
  {
    if n == |obs| then Running(n)
    else
      match FindTracked(obs[n], id)
      case None => Missing(n + 1)
      case Some(current) =>
        if stop(History(obs, id, n + 1)) then Stopped(current, n + 1)
        else RunFrom(obs, id, stop, n + 1)
  }

  /** The first `n` polls found the tracked submission and none of them left the loop. */
  predicate KeptRunning(obs: seq<seq<Submission>>, id: string, stop: seq<string> -> bool, n: nat) {
    Found(obs, id, n) && forall k :: 1 <= k <= n ==> !stop(History(obs, id, k))
  }

  /** One poll of the loop. */
  lemma {:induction false} RunFromStep(obs: seq<seq<Submission>>, id: string, stop: seq<string> -> bool, n: nat)
    requires n < |obs| && FindTracked(obs[n], id).Some?
    ensures var current := FindTracked(obs[n], id).value;
            History(obs, id, n + 1) == History(obs, id, n) + [current.result]
            && (stop(History(obs, id, n + 1)) ==> RunFrom(obs, id, stop, n) == Stopped(current, n + 1))
            && (!stop(History(obs, id, n + 1)) ==> RunFrom(obs, id, stop, n) == RunFrom(obs, id, stop, n + 1))
  {
    HistoryExtends(obs, id, n);
  }

  /** One poll of the loop of `mode`, with its exit test written out. */
  lemma {:induction false} PollStep(obs: seq<seq<Submission>>, id: string, mode: Mode, n: nat)
    requires n < |obs| && FindTracked(obs[n], id).Some?
    ensures var current := FindTracked(obs[n], id).value;
            var h := History(obs, id, n + 1);
            h == History(obs, id, n) + [current.result]
            && (Stops(h, mode) ==> RunFrom(obs, id, ExitRule(mode), n) == Stopped(current, n + 1))
            && (!Stops(h, mode) ==> RunFrom(obs, id, ExitRule(mode), n) == RunFrom(obs, id, ExitRule(mode), n + 1))
  {
    RunFromStep(obs, id, ExitRule(mode), n);
  }

  /** A run resumed at poll `n` polls at least once more when a fetch is left. */
  lemma {:induction false} RunFromBounds(obs: seq<seq<Submission>>, id: string, stop: seq<string> -> bool, n: nat)
    requires n <= |obs|
    ensures n <= RunFrom(obs, id, stop, n).polls <= |obs|
    ensures n < |obs| ==> RunFrom(obs, id, stop, n).polls > n
    decreases |obs| - n
  {
    if n < |obs| && FindTracked(obs[n], id).Some? && !stop(History(obs, id, n + 1)) {
      RunFromBounds(obs, id, stop, n + 1);
    }
  }

  /** One more poll that found the tracked submission and met no exit keeps the loop going. */
  lemma {:induction false} KeptStep(obs: seq<seq<Submission>>, id: string, stop: seq<string> -> bool, n: nat)
    requires KeptRunning(obs, id, stop, n) && n < |obs| && FindTracked(obs[n], id).Some?
    requires !stop(History(obs, id, n + 1))
    ensures KeptRunning(obs, id, stop, n + 1)
  {
  }

  /** Polls that all kept the loop going can be skipped. */
  lemma {:induction false} RunFromSkip(obs: seq<seq<Submission>>, id: string, stop: seq<string> -> bool, j: nat, m: nat)
    requires j <= m && KeptRunning(obs, id, stop, m)
    ensures RunFrom(obs, id, stop, j) == RunFrom(obs, id, stop, m)
    decreases m - j
  {
    if j < m {
      assert FindTracked(obs[j], id).Some? && !stop(History(obs, id, j + 1));
      RunFromSkip(obs, id, stop, j + 1, m);
    }
  }

  /** How a run resumed at poll `n` ends, read off its last poll. */
  lemma {:induction false} RunFromEnd(obs: seq<seq<Submission>>, id: string, stop: seq<string> -> bool, n: nat)
    requires n <= |obs|
    ensures var e := RunFrom(obs, id, stop, n);
            (e.Running? ==> e.polls == |obs|)
            && (e.Missing? ==> n < e.polls <= |obs| && FindTracked(obs[e.polls - 1], id).None?)
            && (e.Stopped? ==> n < e.polls <= |obs| && FindTracked(obs[e.polls - 1], id) == Some(e.last)
                               && stop(History(obs, id, e.polls)))
    decreases |obs| - n
  {
    if n < |obs| && FindTracked(obs[n], id).Some? && !stop(History(obs, id, n + 1)) {
      RunFromEnd(obs, id, stop, n + 1);
    }
  }

  /** Every poll before the last one of a run resumed at `n` kept the loop going. */
  lemma {:induction false} RunFromKept(obs: seq<seq<Submission>>, id: string, stop: seq<string> -> bool, n: nat)
    requires KeptRunning(obs, id, stop, n)
    ensures var e := RunFrom(obs, id, stop, n);
            if e.Running? then KeptRunning(obs, id, stop, e.polls)
            else n < e.polls && KeptRunning(obs, id, stop, e.polls - 1)
    decreases |obs| - n
  {
    if n < |obs| && FindTracked(obs[n], id).Some? && !stop(History(obs, id, n + 1)) {
      assert KeptRunning(obs, id, stop, n + 1);
      RunFromKept(obs, id, stop, n + 1);
    }
  }

  /** How a whole run ends: the polls before its last one kept it going, and the last one is read off. */
  lemma {:induction false} RunCharacterized(obs: seq<seq<Submission>>, id: string, stop: seq<string> -> bool)
    ensures var e := RunFrom(obs, id, stop, 0);
            var before := if e.Running? then e.polls else e.polls - 1;
            0 <= before && KeptRunning(obs, id, stop, before)
            && (e.Running? ==> e.polls == |obs|)
            && (e.Missing? ==> 1 <= e.polls <= |obs| && FindTracked(obs[e.polls - 1], id).None?)
            && (e.Stopped? ==>
                  1 <= e.polls <= |obs| && Found(obs, id, e.polls)
                  && Some(e.last) == FindTracked(obs[e.polls - 1], id)
                  && History(obs, id, e.polls)[e.polls - 1] == e.last.result
                  && stop(History(obs, id, e.polls)))
  {
    assert KeptRunning(obs, id, stop, 0);
    RunFromEnd(obs, id, stop, 0);
    RunFromKept(obs, id, stop, 0);
    var e := RunFrom(obs, id, stop, 0);
    if e.Stopped? {
      HistoryAt(obs, id, e.polls, e.polls - 1);
    }
  }

  // ---------------------------------------------------------------------------
  // the exit rules of the three loops

  /** The three loops: the packaged client's two, and the older client's. */
  datatype Mode = Normal | Debug | Legacy

  /**
   * `no_change_count` after the poll that saw the last verdict of `h`: the
   * normal loop counts repeats only, the debug loop counts the poll of a
   * change as well.
   */
  function NoChangeCount(h: seq<string>, mode: Mode): int {
    if mode == Debug then RunLength(h) else RunLength(h) - 1
  }

  /** The stale exit: a `NO` verdict whose counter has reached `MAX_NO_CHANGE`; the older loop has none. */
  predicate StaleExit(h: seq<string>, mode: Mode)
    requires |h| > 0
  {
    mode != Legacy && IsNo(h[|h| - 1]) && NoChangeCount(h, mode) >= MaxNoChange
  }

  /** Whether the poll that saw the last verdict of `h` leaves the loop. */
  predicate Stops(h: seq<string>, mode: Mode)
    requires |h| > 0
  {
    !IsPending(h[|h| - 1]) || StaleExit(h, mode)
  }

  function ExitRule(mode: Mode): seq<string> -> bool {
    h => |h| > 0 && Stops(h, mode)
  }

  datatype WatchOutcome =
    | NotFound(polls: nat)                   // the tracked id was missing from a fetch
    | Final(last: Submission, polls: nat)    // a verdict outside the pending set
    | Stale(last: Submission, polls: nat)    // `NO` for too long
    | Unfinished(polls: nat)                 // every given fetch was polled and the loop goes on

  /** A loop left by `break` ends on a final verdict, or on a pending one taken as final. */
  function Outcome(e: LoopEnd): WatchOutcome {
    match e
    case Missing(polls) => NotFound(polls)
    case Running(polls) => Unfinished(polls)
    case Stopped(last, polls) => if IsPending(last.result) then Stale(last, polls) else Final(last, polls)
  }

  /** The polling loop of a watch of `id`. */
  function Watch(obs: seq<seq<Submission>>, id: string, mode: Mode): WatchOutcome {
    Outcome(RunFrom(obs, id, ExitRule(mode), 0))
  }

  /** A watch resumed at poll `n` ends there when no fetch is left or the fetch misses the tracked id. */
  lemma {:induction false} WatchResumed(obs: seq<seq<Submission>>, id: string, mode: Mode, n: nat)
    requires n <= |obs| && RunFrom(obs, id, ExitRule(mode), n) == RunFrom(obs, id, ExitRule(mode), 0)
    ensures n == |obs| ==> Watch(obs, id, mode) == Unfinished(n)
    ensures n < |obs| && FindTracked(obs[n], id).None? ==> Watch(obs, id, mode) == NotFound(n + 1)
  {
  }

  /**
   * The exits of the packaged client's loops after a poll that saw `current`
   * with the counter at `count`: a verdict outside the pending list ends the
   * watch as final, a `NO` whose counter reached `MAX_NO_CHANGE` ends it as
   * stale, and otherwise the watch goes on with the next poll.
   */
  lemma {:induction false} PollExit(obs: seq<seq<Submission>>, id: string, mode: Mode, n: nat, current: Submission, count: int)
    requires mode != Legacy && n < |obs| && FindTracked(obs[n], id) == Some(current)
    requires count == NoChangeCount(History(obs, id, n + 1), mode)
    requires RunFrom(obs, id, ExitRule(mode), n) == RunFrom(obs, id, ExitRule(mode), 0)
    ensures !IsPending(current.result) ==> Watch(obs, id, mode) == Final(current, n + 1)
    ensures IsPending(current.result) && IsNo(current.result) && count >= MaxNoChange ==>
              Watch(obs, id, mode) == Stale(current, n + 1)
    ensures IsPending(current.result) && !(IsNo(current.result) && count >= MaxNoChange) ==>
              RunFrom(obs, id, ExitRule(mode), n + 1) == RunFrom(obs, id, ExitRule(mode), 0)
  {
    PollStep(obs, id, mode, n);
  }

  /** No poll among the first `n` left the loop of `mode`. */
  predicate KeptPolling(obs: seq<seq<Submission>>, id: string, mode: Mode, n: nat) {
    KeptRunning(obs, id, ExitRule(mode), n)
  }

  /**
   * What a watch ends in, stated poll by poll: every poll before the last
   * found the tracked submission and met no exit; `NotFound` when the last
   * poll missed the tracked id; `Final` exactly when its verdict is outside
   * the pending set; `Stale` only on an upper-case `NO` whose counter has
   * reached 20; `Unfinished` only when every given fetch was polled.
   */
  lemma {:induction false} WatchCharacterized(obs: seq<seq<Submission>>, id: string, mode: Mode)
    ensures var o := Watch(obs, id, mode);
            var before := if o.Unfinished? then o.polls else o.polls - 1;
            0 <= before && KeptPolling(obs, id, mode, before)
            && (o.Unfinished? ==> o.polls == |obs|)
            && (o.NotFound? ==> 1 <= o.polls <= |obs| && FindTracked(obs[o.polls - 1], id).None?)
            && (o.Final? || o.Stale? ==>
                  1 <= o.polls && Found(obs, id, o.polls)
                  && Some(o.last) == FindTracked(obs[o.polls - 1], id)
                  && History(obs, id, o.polls)[o.polls - 1] == o.last.result
                  && Stops(History(obs, id, o.polls), mode))
            && (o.Final? ==> !IsPending(o.last.result))
            && (o.Stale? ==> IsPending(o.last.result) && StaleExit(History(obs, id, o.polls), mode))
  {
    RunCharacterized(obs, id, ExitRule(mode));
  }

  // ---------------------------------------------------------------------------
  // the stale exit

  /**
   * The stale exit needs a run of identical `NO` observations: 21 in the
   * normal loop, 20 in the debug loop; and a run that just reached that
   * length is exactly that long.
   */
  lemma {:induction false} StaleRunLength(h: seq<string>, mode: Mode)
    requires |h| > 0 && StaleExit(h, mode)
    ensures mode != Legacy && Upper(h[|h| - 1]) == "NO"
    ensures var need := if mode == Debug then MaxNoChange else MaxNoChange + 1;
            |h| >= need && forall i :: |h| - need <= i < |h| ==> h[i] == h[|h| - 1]
    ensures var need := if mode == Debug then MaxNoChange else MaxNoChange + 1;
            |h| > 1 && !Stops(h[..|h| - 1], mode) ==> RunLength(h) == need
  {
    RunLengthMeaning(h);
    if |h| > 1 && !Stops(h[..|h| - 1], mode) {
      var init := h[..|h| - 1];
      if h[|h| - 2] == h[|h| - 1] {
        assert RunLength(h) == RunLength(init) + 1;
        assert init[|init| - 1] == h[|h| - 1];
      }
    }
  }

  /** A poll that ends the normal loop ends the debug loop too. */
  lemma {:induction false} NormalStopIsDebugStop(h: seq<string>)
    requires |h| > 0 && Stops(h, Normal)
    ensures Stops(h, Debug)
  {
  }

  /** From poll `n` on, the debug loop never runs longer than the normal loop, and differs only by leaving on a pending verdict. */
  lemma {:induction false} DebugRunsNoLonger(obs: seq<seq<Submission>>, id: string, n: nat)
    requires n <= |obs|
    ensures var d := RunFrom(obs, id, ExitRule(Debug), n);
            d.polls <= RunFrom(obs, id, ExitRule(Normal), n).polls
            && (!(d.Stopped? && IsPending(d.last.result)) ==> d == RunFrom(obs, id, ExitRule(Normal), n))
    decreases |obs| - n
  {
    if n < |obs| && FindTracked(obs[n], id).Some? {
      var h := History(obs, id, n + 1);
      if ExitRule(Debug)(h) {
        if !ExitRule(Normal)(h) {
          RunFromBounds(obs, id, ExitRule(Normal), n + 1);
          HistoryAt(obs, id, n + 1, n);
        }
      } else {
        if ExitRule(Normal)(h) {
          NormalStopIsDebugStop(h);
        }
        DebugRunsNoLonger(obs, id, n + 1);
      }
    }
  }

  /** With the same fetches, the debug loop never polls longer than the normal loop, and ends the same way unless it gives up as stale. */
  lemma {:induction false} DebugEndsNoLater(obs: seq<seq<Submission>>, id: string)
    ensures Watch(obs, id, Debug).polls <= Watch(obs, id, Normal).polls
    ensures !Watch(obs, id, Debug).Stale? ==> Watch(obs, id, Debug) == Watch(obs, id, Normal)
  {
    DebugRunsNoLonger(obs, id, 0);
  }

  /** Polls that kept the debug loop going kept the normal loop going too. */
  lemma {:induction false} DebugKeptIsNormalKept(obs: seq<seq<Submission>>, id: string, m: nat)
    requires KeptPolling(obs, id, Debug, m)
    ensures KeptPolling(obs, id, Normal, m)
  {
    forall k | 1 <= k <= m
      ensures !ExitRule(Normal)(History(obs, id, k))
    {
      var hk := History(obs, id, k);
      assert !ExitRule(Debug)(hk);
      if Stops(hk, Normal) {
        NormalStopIsDebugStop(hk);
      }
    }
  }

  /** The first stale exit of the debug loop comes on a run of exactly 20, where the normal loop goes on. */
  lemma {:induction false} DebugStaleIsNoNormalStop(h: seq<string>)
    requires |h| > 1 && StaleExit(h, Debug) && !Stops(h[..|h| - 1], Debug)
    ensures RunLength(h) == MaxNoChange && Upper(h[|h| - 1]) == "NO" && !Stops(h, Normal)
  {
    StaleRunLength(h, Debug);
  }

  /** Where the debug loop gives up on `NO`, the run is exactly 20 long and the normal loop is still polling. */
  lemma {:induction false} DebugStaleLeavesNormalPolling(obs: seq<seq<Submission>>, id: string, last: Submission, n: nat)
    requires Watch(obs, id, Debug) == Stale(last, n)
    ensures n >= MaxNoChange && Found(obs, id, n) && KeptPolling(obs, id, Normal, n)
    ensures History(obs, id, n)[n - 1] == last.result && Upper(last.result) == "NO"
    ensures RunLength(History(obs, id, n)) == MaxNoChange
  {
    WatchCharacterized(obs, id, Debug);
    var h := History(obs, id, n);
    StaleRunLength(h, Debug);
    HistoryExtends(obs, id, n - 1);
    assert h[..n - 1] == History(obs, id, n - 1);
    assert !ExitRule(Debug)(History(obs, id, n - 1));
    DebugStaleIsNoNormalStop(h);
    DebugKeptIsNormalKept(obs, id, n - 1);
    assert !ExitRule(Normal)(h);
    KeptStep(obs, id, ExitRule(Normal), n - 1);
  }

  /** One more `NO` after a run of 20 reaches the normal loop's stale exit. */
  lemma {:induction false} StaleOnRepeat(h: seq<string>, v: string)
    requires |h| > 0 && h[|h| - 1] == v && Upper(v) == "NO" && RunLength(h) == MaxNoChange
    ensures Stops(h + [v], Normal) && StaleExit(h + [v], Normal) && IsPending(v)
  {
    RunLengthSnoc(h, v);
  }

  lemma {:induction false} NormalStaleOnNextPoll(obs: seq<seq<Submission>>, id: string, n: nat, next: Submission)
    requires 0 < n < |obs| && FindTracked(obs[n], id) == Some(next)
    requires History(obs, id, n)[n - 1] == next.result && Upper(next.result) == "NO"
    requires RunLength(History(obs, id, n)) == MaxNoChange
    ensures RunFrom(obs, id, ExitRule(Normal), n) == Stopped(next, n + 1) && IsPending(next.result)
  {
    var h := History(obs, id, n);
    StaleOnRepeat(h, next.result);
    RunFromStep(obs, id, ExitRule(Normal), n);
  }

  /**
   * The two loops of the packaged client reach the stale exit one poll
   * apart: when the debug loop gives up on `NO` and the next fetch shows the
   * same verdict, the normal loop gives up on that next poll.
   */
  lemma {:induction false} OnePollApart(obs: seq<seq<Submission>>, id: string, last: Submission, n: nat, next: Submission)
    requires Watch(obs, id, Debug) == Stale(last, n)
    requires n < |obs| && FindTracked(obs[n], id) == Some(next) && next.result == last.result
    ensures Watch(obs, id, Normal) == Stale(next, n + 1)
  {
    DebugStaleLeavesNormalPolling(obs, id, last, n);
    RunFromSkip(obs, id, ExitRule(Normal), 0, n);
    NormalStaleOnNextPoll(obs, id, n, next);
  }

  // ---------------------------------------------------------------------------
  // verdicts that do not move

  /**
   * A verdict that stays pending never ends the older loop, and never ends
   * the packaged client's loops unless it is `NO`: however many fetches are
   * given, all of them are polled.
   */
  lemma {:induction false} StuckPendingNeverStops(obs: seq<seq<Submission>>, id: string, mode: Mode)
    requires forall k :: 0 <= k < |obs| ==>
               var r := FindTracked(obs[k], id);
               r.Some? && IsPending(r.value.result) && (mode == Legacy || Upper(r.value.result) != "NO")
    ensures Watch(obs, id, mode) == Unfinished(|obs|)
  {
    forall k | 1 <= k <= |obs|
      ensures !ExitRule(mode)(History(obs, id, k))
    {
      HistoryAt(obs, id, k, k - 1);
    }
    assert KeptPolling(obs, id, mode, |obs|);
    RunFromSkip(obs, id, ExitRule(mode), 0, |obs|);
  }

  /** Polls that keep finding the same submission see a run as long as the polls made. */
  lemma {:induction false} ConstantHistory(obs: seq<seq<Submission>>, id: string, s: Submission, k: nat)
    requires k <= |obs| && forall j :: 0 <= j < |obs| ==> FindTracked(obs[j], id) == Some(s)
    ensures RunLength(History(obs, id, k)) == k
    ensures k > 0 ==> History(obs, id, k)[k - 1] == s.result
  {
    if k > 0 {
      ConstantHistory(obs, id, s, k - 1);
      RunLengthSnoc(History(obs, id, k - 1), s.result);
    }
  }

  /** A verdict stuck on `NO` reaches the stale exit on poll 21 of the normal loop, poll 20 of the debug loop. */
  lemma {:induction false} StuckNoStaleAt(obs: seq<seq<Submission>>, id: string, s: Submission, mode: Mode)
    requires mode != Legacy && Upper(s.result) == "NO"
    requires |obs| >= (if mode == Debug then MaxNoChange else MaxNoChange + 1)
    requires forall k :: 0 <= k < |obs| ==> FindTracked(obs[k], id) == Some(s)
    ensures Watch(obs, id, mode) == Stale(s, if mode == Debug then MaxNoChange else MaxNoChange + 1)
  {
    var n := if mode == Debug then MaxNoChange else MaxNoChange + 1;
    forall k | 1 <= k <= n - 1
      ensures !ExitRule(mode)(History(obs, id, k))
    {
      ConstantHistory(obs, id, s, k);
    }
    assert KeptRunning(obs, id, ExitRule(mode), n - 1);
    RunFromSkip(obs, id, ExitRule(mode), 0, n - 1);
    ConstantHistory(obs, id, s, n);
    RunFromStep(obs, id, ExitRule(mode), n - 1);
  }

  /**
   * A verdict stuck on `NO` ends the normal loop as stale on poll 21 and the
   * debug loop on poll 20, while the older loop polls every fetch given.
   */
  lemma {:induction false} StuckNoEndsStale(obs: seq<seq<Submission>>, id: string, s: Submission)
    requires |obs| >= MaxNoChange + 1 && Upper(s.result) == "NO"
    requires forall k :: 0 <= k < |obs| ==> FindTracked(obs[k], id) == Some(s)
    ensures Watch(obs, id, Normal) == Stale(s, MaxNoChange + 1)
    ensures Watch(obs, id, Debug) == Stale(s, MaxNoChange)
    ensures Watch(obs, id, Legacy) == Unfinished(|obs|)
  {
    StuckNoStaleAt(obs, id, s, Normal);
    StuckNoStaleAt(obs, id, s, Debug);
    StuckPendingNeverStops(obs, id, Legacy);
  }

  // ---------------------------------------------------------------------------
  // a whole watch: the first fetch, the loop and the feedback request

  /** How `watch_submission` goes: no submission to track, or the loop over a tracked id. */
  datatype WatchResult = NoSubmissions | Tracked(id: string, outcome: WatchOutcome)

  /** The watch of the newest submission of the first fetch `initial`. */
  function WatchResultOf(initial: seq<Submission>, obs: seq<seq<Submission>>, mode: Mode): WatchResult {
    if initial == [] then NoSubmissions else Tracked(initial[0].id, Watch(obs, initial[0].id, mode))
  }

  /** The id whose feedback is fetched after the loop: only a loop left by `break` gets there. */
  function FeedbackFor(w: WatchResult): Option<string> {
    if w.Tracked? && (w.outcome.Final? || w.outcome.Stale?) then Some(w.id) else None
  }

  /** A poll that ends the loop, after polls that did not. */
  predicate EndsOnPoll(obs: seq<seq<Submission>>, id: string, mode: Mode, n: nat) {
    1 <= n <= |obs| && Found(obs, id, n) && KeptPolling(obs, id, mode, n - 1) && Stops(History(obs, id, n), mode)
  }

  /** A run whose first `n - 1` polls kept it going and whose poll `n` met the exit rule stops on poll `n`. */
  lemma {:induction false} RunStopsAt(obs: seq<seq<Submission>>, id: string, stop: seq<string> -> bool, n: nat)
    requires 1 <= n <= |obs| && KeptRunning(obs, id, stop, n - 1)
    requires FindTracked(obs[n - 1], id).Some? && stop(History(obs, id, n))
    ensures RunFrom(obs, id, stop, 0) == Stopped(FindTracked(obs[n - 1], id).value, n)
  {
    RunFromSkip(obs, id, stop, 0, n - 1);
    RunFromStep(obs, id, stop, n - 1);
  }

  /** A poll that found the tracked submission and met an exit, after polls that met none, is the last one. */
  lemma {:induction false} EndsAt(obs: seq<seq<Submission>>, id: string, mode: Mode, n: nat)
    requires EndsOnPoll(obs, id, mode, n)
    ensures (Watch(obs, id, mode).Final? || Watch(obs, id, mode).Stale?) && Watch(obs, id, mode).polls == n
  {
    RunStopsAt(obs, id, ExitRule(mode), n);
  }

  /**
   * Feedback is requested, for the newest submission of the first fetch,
   * exactly when some poll found that submission and ended the loop.
   */
  lemma {:induction false} FeedbackAfterLastVerdict(initial: seq<Submission>, obs: seq<seq<Submission>>, mode: Mode)
    ensures var f := FeedbackFor(WatchResultOf(initial, obs, mode));
            f.Some? <==> (initial != [] && exists n :: EndsOnPoll(obs, initial[0].id, mode, n))
    ensures var f := FeedbackFor(WatchResultOf(initial, obs, mode));
            f.Some? ==> f.value == initial[0].id
  {
    if initial != [] {
      var id := initial[0].id;
      var o := Watch(obs, id, mode);
      WatchCharacterized(obs, id, mode);
      if o.Final? || o.Stale? {
        assert EndsOnPoll(obs, id, mode, o.polls);
      }
      if exists n :: EndsOnPoll(obs, id, mode, n) {
        var n :| EndsOnPoll(obs, id, mode, n);
        EndsAt(obs, id, mode, n);
      }
    }
  }
}
