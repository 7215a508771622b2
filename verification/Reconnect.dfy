/** The relay's reconnect loop: exponential back-off, and a long pause after repeated terminal rejections. */
module Reconnect {
  import opened Lists

  const CAP: real := 60.0
  const LONG_UPTIME: real := 60.0
  const TERMINAL_AFTER_ATTEMPTS: nat := 3

  /** How one connection went: how long it lasted, whether the bridge sent `ready`, whether a protocol mismatch
      was recorded as the terminal reason, and the close code (0 if the connection raised instead). */
  datatype Outcome = Outcome(duration: real, ready: bool, mismatch: bool, closeCode: nat)

  predicate IsTerminalCode(code: nat) { code == 4401 || code == 4403 || code == 4406 }

  /** A close that the loop counts as a terminal failure. */
  predicate Counted(o: Outcome) { !o.mismatch && IsTerminalCode(o.closeCode) }

  datatype Config = Config(initial: real, terminalRetry: real)

  /** The default configuration. */
  const DEFAULTS := Config(1.0, 3600.0)

  datatype State = State(delay: real, failures: nat)

  function Min(a: real, b: real): real { if a < b then a else b }

  function Failures(s: State, o: Outcome): nat {
    (if o.ready then 0 else s.failures) + (if Counted(o) then 1 else 0)
  }

  /** Whether the loop gives up for long. */
  predicate Pauses(s: State, o: Outcome) {
    o.mismatch || (Counted(o) && Failures(s, o) >= TERMINAL_AFTER_ATTEMPTS)
  }

  /** One turn of the loop: the wait before the next attempt, and the state after it. */
  function Turn(c: Config, s: State, o: Outcome): (real, State) {
    if Pauses(s, o) then (c.terminalRetry, State(c.initial, Failures(s, o)))
    else
      var delay := if o.duration >= LONG_UPTIME then c.initial else s.delay;
      (delay, State(Min(delay * 2.0, CAP), Failures(s, o)))
  }

  function StateAfter(c: Config, outcomes: seq<Outcome>): State
    decreases |outcomes|
  {
    if outcomes == [] then State(c.initial, 0)
    else Turn(c, StateAfter(c, outcomes[..|outcomes| - 1]), outcomes[|outcomes| - 1]).1
  }

  /** The wait that follows connection `i`. */
  function Wait(c: Config, outcomes: seq<Outcome>, i: nat): real
    requires i < |outcomes|
  {
    Turn(c, StateAfter(c, outcomes[..i]), outcomes[i]).0
  }

  /** When attempt `i` starts, counted from the first. */
  function Start(c: Config, outcomes: seq<Outcome>, i: nat): real
    requires i <= |outcomes|
    decreases i
  {
    if i == 0 then 0.0 else Start(c, outcomes, i - 1) + outcomes[i - 1].duration + Wait(c, outcomes, i - 1)
  }

  lemma {:induction false} NextTurn(c: Config, outcomes: seq<Outcome>, i: nat)
    requires i < |outcomes|
    ensures Turn(c, StateAfter(c, outcomes[..i]), outcomes[i]) == (Wait(c, outcomes, i), StateAfter(c, outcomes[..i + 1]))
    ensures Start(c, outcomes, i + 1) == Start(c, outcomes, i) + outcomes[i].duration + Wait(c, outcomes, i)
  {
    assert outcomes[..i + 1][..i] == outcomes[..i];
  }

  // ----- The loop -----

  class VarcoRelay {
    var reconnectInitialDelay: real
    var terminalRetryDelay: real
    var terminalFailures: nat
    var terminalReason: bool

    constructor ()
      ensures Settings() == DEFAULTS && terminalFailures == 0 && !terminalReason
    {
      reconnectInitialDelay, terminalRetryDelay := 1.0, 3600.0;
      terminalFailures, terminalReason := 0, false;
    }

    function Settings(): Config
      reads this
    {
      Config(reconnectInitialDelay, terminalRetryDelay)
    }

    /** The messages of one connection that the loop depends on. */
    method Connect(o: Outcome) returns (closeCode: nat)
      modifies this
      ensures Settings() == old(Settings()) && closeCode == o.closeCode
      ensures terminalFailures == (if o.ready then 0 else old(terminalFailures))
      ensures terminalReason == (old(terminalReason) || o.mismatch)
    {
      if o.ready {
        terminalFailures := 0;
      }
      if o.mismatch {
        terminalReason := true;
      }
      closeCode := o.closeCode;
    }

    /** The loop over the given connections; returns the clock at the start of every attempt. */
    method Run(outcomes: seq<Outcome>) returns (starts: seq<real>)
      requires terminalFailures == 0 && !terminalReason
      modifies this
      ensures Settings() == old(Settings())
      ensures |starts| == |outcomes| && forall i :: 0 <= i < |outcomes| ==> starts[i] == Start(Settings(), outcomes, i)
    {
      assert StateAfter(Settings(), []) == State(Settings().initial, 0);
      hide StateAfter, Wait;
      var delay := reconnectInitialDelay;
      var clock := 0.0;
      starts := [];
      ghost var c := Settings();
      var i := 0;
      while i < |outcomes|
        invariant 0 <= i <= |outcomes| && Settings() == c && !terminalReason
        invariant StateAfter(c, outcomes[..i]) == State(delay, terminalFailures)
        invariant clock == Start(c, outcomes, i)
        invariant |starts| == i && forall k :: 0 <= k < i ==> starts[k] == Start(c, outcomes, k)
      {
        var o := outcomes[i];
        NextTurn(c, outcomes, i);
        starts := starts + [clock];
        var closeCode := Connect(o);
        var reason := terminalReason;
        terminalReason := false;
        if !reason && IsTerminalCode(closeCode) {
          terminalFailures := terminalFailures + 1;
          if terminalFailures >= TERMINAL_AFTER_ATTEMPTS {
            reason := true;
          }
        }
        var wait;
        if reason {
          wait := terminalRetryDelay;
          delay := reconnectInitialDelay;
        } else {
          if o.duration >= LONG_UPTIME {
            delay := reconnectInitialDelay;
          }
          wait := delay;
          delay := Min(delay * 2.0, 60.0);
        }
        clock := clock + o.duration + wait;
        i := i + 1;
      }
    }
  }

  // ----- How often it reconnects -----

  predicate Timed(outcomes: seq<Outcome>) {
    forall i :: 0 <= i < |outcomes| ==> outcomes[i].duration >= 0.0
  }

  /** The delay never leaves the interval from one second to sixty. */
  lemma {:induction false} DelayInRange(outcomes: seq<Outcome>)
    ensures 1.0 <= StateAfter(DEFAULTS, outcomes).delay <= 60.0
    decreases |outcomes|
  {
    if outcomes != [] {
      DelayInRange(outcomes[..|outcomes| - 1]);
    }
  }

  /** Seconds between the starts of attempts `i` and `i + k`. */
  function Gap(outcomes: seq<Outcome>, i: nat, k: nat): real
    requires i + k <= |outcomes|
  {
    Start(DEFAULTS, outcomes, i + k) - Start(DEFAULTS, outcomes, i)
  }

  /** `k` attempts later either a minute has passed or the delay has doubled `k` times. */
  predicate Doubled(outcomes: seq<Outcome>, i: nat, k: nat, power: real)
    requires i + k <= |outcomes|
  {
    || Gap(outcomes, i, k) > 60.0
    || (Gap(outcomes, i, k) >= power - 1.0 && StateAfter(DEFAULTS, outcomes[..i + k]).delay >= Min(power, 60.0))
  }

  lemma {:induction false} DoublesOnce(outcomes: seq<Outcome>, i: nat, k: nat, power: real)
    requires Timed(outcomes) && i + k < |outcomes| && 1.0 <= power <= 60.0 && Doubled(outcomes, i, k, power)
    ensures Doubled(outcomes, i, k + 1, power * 2.0)
  {
    var n := i + k;
    var s, o := StateAfter(DEFAULTS, outcomes[..n]), outcomes[n];
    DelayInRange(outcomes[..n]);
    assert outcomes[..n + 1][..n] == outcomes[..n] && outcomes[..n + 1][n] == o;
    assert Start(DEFAULTS, outcomes, n + 1) == Start(DEFAULTS, outcomes, n) + o.duration + Wait(DEFAULTS, outcomes, n);
  }

  lemma {:induction false} StartsAscend(outcomes: seq<Outcome>, i: nat, j: nat)
    requires Timed(outcomes) && i <= j <= |outcomes|
    ensures Start(DEFAULTS, outcomes, i) <= Start(DEFAULTS, outcomes, j)
    decreases j
  {
    if i < j {
      StartsAscend(outcomes, i, j - 1);
      DelayInRange(outcomes[..j - 1]);
    }
  }

  /** Attempts that start within sixty seconds of each other are among six consecutive ones. */
  lemma {:induction false} AtMostSixPerMinute(outcomes: seq<Outcome>, i: nat, j: nat)
    requires Timed(outcomes) && i <= j <= |outcomes|
    requires Start(DEFAULTS, outcomes, j) - Start(DEFAULTS, outcomes, i) <= 60.0
    ensures j - i <= 5
  {
    if j - i >= 6 {
      DelayInRange(outcomes[..i]);
      DoublesOnce(outcomes, i, 0, 1.0);
      DoublesOnce(outcomes, i, 1, 2.0);
      DoublesOnce(outcomes, i, 2, 4.0);
      DoublesOnce(outcomes, i, 3, 8.0);
      DoublesOnce(outcomes, i, 4, 16.0);
      DoublesOnce(outcomes, i, 5, 32.0);
      StartsAscend(outcomes, i + 6, j);
    }
  }

  // ----- The long pause -----

  /** The bridge refuses the authority or its protocol, and no mismatch was recorded. */
  predicate Rejected(o: Outcome) {
    !o.mismatch && o.closeCode in {4401, 4403, 4406}
  }

  /** The positions of the rejections that count: no connection after them sent `ready`. */
  function StandingCloses(outcomes: seq<Outcome>): set<nat> {
    set i: nat | i < |outcomes| && Rejected(outcomes[i]) && forall n :: i < n < |outcomes| ==> !outcomes[n].ready
  }

  lemma {:induction false} OneMoreClose(before: seq<Outcome>, o: Outcome)
    ensures StandingCloses(before + [o]) == (if o.ready then {} else StandingCloses(before)) + (if Rejected(o) then {|before|} else {})
  {
    var all := before + [o];
    assert all[|before|] == o;
    forall i: nat | i < |before|
      ensures i in StandingCloses(all) <==> !o.ready && i in StandingCloses(before)
    {
      assert all[i] == before[i];
      assert forall n :: i < n < |before| ==> all[n] == before[n];
    }
  }

  /** The failure counter is the number of terminal closes that were not followed by a `ready`. */
  lemma {:induction false} FailuresAreCounted(c: Config, outcomes: seq<Outcome>)
    ensures StateAfter(c, outcomes).failures == |StandingCloses(outcomes)|
    decreases |outcomes|
  {
    hide StandingCloses;
    if outcomes == [] {
      assert StandingCloses([]) == {} by { NothingStands(); }
    } else {
      var before, o := outcomes[..|outcomes| - 1], outcomes[|outcomes| - 1];
      FailuresAreCounted(c, before);
      OneMoreClose(before, o);
      assert outcomes == before + [o];
      assert |before| !in StandingCloses(before) by { StandsBefore(before); }
    }
  }

  lemma {:induction false} NothingStands()
    ensures StandingCloses([]) == {}
  {
  }

  lemma {:induction false} StandsBefore(outcomes: seq<Outcome>)
    ensures |outcomes| !in StandingCloses(outcomes)
  {
  }

  /** Connection `k` ends in a rejection, two earlier ones did, and none after the first of the three sent `ready`. */
  ghost predicate ThirdClose(outcomes: seq<Outcome>, k: nat)
    requires k < |outcomes|
  {
    exists i, j :: 0 <= i < j < k && Rejected(outcomes[i]) && Rejected(outcomes[j]) && Rejected(outcomes[k])
      && forall n :: i < n <= k ==> !outcomes[n].ready
  }

  /** A set of three or more numbers holds two more besides each of its members. */
  lemma {:induction false} TwoOthers(s: set<nat>, k: nat) returns (i: nat, j: nat)
    requires k in s && |s| >= 3
    ensures i in s && j in s && i < j && i != k && j != k
  {
    var others := s - {k};
    assert |others| >= 2;
    var x :| x in others;
    var rest := others - {x};
    assert |rest| >= 1;
    var y :| y in rest;
    i, j := if x < y then x else y, if x < y then y else x;
  }

  lemma {:induction false} ThirdCloseStands(outcomes: seq<Outcome>, k: nat)
    requires k < |outcomes| && ThirdClose(outcomes, k)
    ensures |StandingCloses(outcomes[..k + 1])| >= 3
  {
    var i, j :| 0 <= i < j < k && Rejected(outcomes[i]) && Rejected(outcomes[j]) && Rejected(outcomes[k])
      && forall n :: i < n <= k ==> !outcomes[n].ready;
    var three: set<nat> := {i, j, k};
    assert |three| == 3;
    assert three <= StandingCloses(outcomes[..k + 1]);
    SubsetSize(three, StandingCloses(outcomes[..k + 1]));
  }

  lemma {:induction false} ThreeStand(outcomes: seq<Outcome>, k: nat)
    requires k < |outcomes| && Rejected(outcomes[k]) && |StandingCloses(outcomes[..k + 1])| >= 3
    ensures ThirdClose(outcomes, k)
  {
    var upTo := outcomes[..k + 1];
    assert k in StandingCloses(upTo);
    var i, j := TwoOthers(StandingCloses(upTo), k);
    assert forall n :: i < n <= k ==> upTo[n] == outcomes[n];
  }

  /** The long wait follows exactly a recorded mismatch or the third (or a later) terminal close without a `ready` between;
      every other connection is followed by at most sixty seconds. */
  lemma {:induction false} LongWaitExactly(outcomes: seq<Outcome>, k: nat)
    requires k < |outcomes|
    ensures if outcomes[k].mismatch || ThirdClose(outcomes, k)
      then Wait(DEFAULTS, outcomes, k) == 3600.0
      else Wait(DEFAULTS, outcomes, k) <= 60.0
  {
    assert outcomes[..k + 1][..k] == outcomes[..k] && outcomes[..k + 1][k] == outcomes[k];
    if ThirdClose(outcomes, k) {
      ThirdCloseStands(outcomes, k);
    } else if Rejected(outcomes[k]) && |StandingCloses(outcomes[..k + 1])| >= 3 {
      ThreeStand(outcomes, k);
    }
    FailuresAreCounted(DEFAULTS, outcomes[..k + 1]);
    DelayInRange(outcomes[..k]);
  }

  /** The connection is followed by the long wait. */
  ghost predicate IsLong(outcomes: seq<Outcome>, k: nat)
    requires k < |outcomes|
  {
    outcomes[k].mismatch || ThirdClose(outcomes, k)
  }

  /** How many connections in a row before this one were followed by a short wait, with none of a minute or longer after the first. */
  ghost function Streak(outcomes: seq<Outcome>, k: nat): nat
    requires k < |outcomes|
    decreases k
  {
    if k == 0 || outcomes[k].duration >= 60.0 || IsLong(outcomes, k - 1) then 0 else Streak(outcomes, k - 1) + 1
  }

  /** 1, 2, 4, 8, 16, 32, 60, 60, ... */
  function Doubling(n: nat): real {
    if n == 0 then 1.0 else if Doubling(n - 1) < 30.0 then 2.0 * Doubling(n - 1) else 60.0
  }

  lemma {:induction false} DelayIs(outcomes: seq<Outcome>, k: nat)
    requires k < |outcomes|
    ensures StateAfter(DEFAULTS, outcomes[..k]).delay == if k == 0 || IsLong(outcomes, k - 1) then 1.0 else Doubling(Streak(outcomes, k - 1) + 1)
    decreases k
  {
    hide IsLong, Streak, Doubling, Wait;
    if k > 0 {
      DelayIs(outcomes, k - 1);
      StreakStarts(outcomes, k - 1);
      TurnIs(outcomes, k - 1);
    }
  }

  lemma {:induction false} StreakStarts(outcomes: seq<Outcome>, k: nat)
    requires k < |outcomes|
    ensures Streak(outcomes, k) == if k == 0 || outcomes[k].duration >= 60.0 || IsLong(outcomes, k - 1) then 0 else Streak(outcomes, k - 1) + 1
    ensures Doubling(0) == 1.0 && forall n: nat :: Doubling(n + 1) == Min(2.0 * Doubling(n), 60.0)
  {
    hide IsLong;
    forall n: nat
      ensures Doubling(n + 1) == Min(2.0 * Doubling(n), 60.0)
    {
    }
  }

  /** One turn, by whether its wait is long. */
  lemma {:induction false} TurnIs(outcomes: seq<Outcome>, k: nat)
    requires k < |outcomes|
    ensures var s := StateAfter(DEFAULTS, outcomes[..k]);
      var delay := if outcomes[k].duration >= 60.0 then 1.0 else s.delay;
      if IsLong(outcomes, k) then StateAfter(DEFAULTS, outcomes[..k + 1]).delay == 1.0
      else Wait(DEFAULTS, outcomes, k) == delay && StateAfter(DEFAULTS, outcomes[..k + 1]).delay == Min(delay * 2.0, 60.0)
  {
    hide ThirdClose, StateAfter;
    NextTurn(DEFAULTS, outcomes, k);
    LongWaitExactly(outcomes, k);
    DelayInRange(outcomes[..k]);
  }

  /** Any other connection is followed by a wait that doubles from one second, up to sixty, and starts over after a long wait or
      a connection of a minute. */
  lemma {:induction false} ShortWaitExactly(outcomes: seq<Outcome>, k: nat)
    requires k < |outcomes| && !IsLong(outcomes, k)
    ensures Wait(DEFAULTS, outcomes, k) == Doubling(Streak(outcomes, k))
  {
    hide IsLong, Wait, Streak, Doubling;
    DelayIs(outcomes, k);
    StreakStarts(outcomes, k);
    TurnIs(outcomes, k);
  }

  /** A close with a terminal code counts only if no mismatch was recorded: after one with a mismatch and two without,
      the third terminal close in a row is followed by a short wait. */
  lemma {:induction false} MismatchIsNotCounted()
    ensures var o := Outcome(1.0, false, false, 4403);
      Wait(DEFAULTS, [o.(mismatch := true), o, o], 2) <= 60.0
  {
    var o := Outcome(1.0, false, false, 4403);
    LongWaitExactly([o.(mismatch := true), o, o], 2);
  }
}
