/** The limiters of the authority over every run. */
module AuthorityRates {
  import opened Lists
  import opened Options
  import opened Dict
  import opened Policy
  import opened Models
  import SW = SlidingWindow
  import RL = RestrictionLimits
  import LR = LimiterRuns
  import LM = LimiterMeaning
  import StoreSpec
  import opened AuthoritySpec
  import opened AuthorityRuns

  /** The grant under which the step asks for data, if it gets that far. */
  function GrantOf(a: Authority, i: Input): (g: Option<Grant>)
    ensures g.Some? ==> i.op.Receive? && IsDataPlane(i.op.m)
  {
    if i.op.Receive? && IsDataPlane(i.op.m) && RequireGrant(a, i.op.sid, i.env).0.Granted?
    then Some(RequireGrant(a, i.op.sid, i.env).0.grant) else None
  }

  function RequestOf(g: Grant, i: Input): SW.Request
    requires i.op.Receive?
  {
    SW.Request(g.consumer, i.env.mono, WeightOf(i.op.m))
  }

  /** What the data-plane limiter was asked. */
  function Requests(inputs: seq<Input>): seq<SW.Request>
    decreases |inputs|
  {
    if inputs == [] then []
    else
      var before, i := inputs[..|inputs| - 1], inputs[|inputs| - 1];
      match GrantOf(Run(before), i)
      case None => Requests(before)
      case Some(g) => Requests(before) + [RequestOf(g, i)]
  }

  /** A data-plane message of a bound session whose grant is good. */
  predicate IsAsked(a: Authority, i: Input) {
    i.op.Receive? && IsDataPlane(i.op.m) && IsBound(a, i.op.sid) && IsGood(BoundGrant(a, i.op.sid), i.env.now)
  }

  /** What a message costs. */
  function Units(m: Message): nat {
    match m
    case HistoryQuery(_) => 5
    case CameraSnapshot(_) => 5
    case CallService(_, _, _, _, _) => 2
    case _ => 1
  }

  /** The times and costs of the messages under a consumer's grant that were not refused for their rate. */
  function Answered(inputs: seq<Input>, consumer: string): seq<SW.Hit>
    decreases |inputs|
  {
    if inputs == [] then []
    else
      var before, i := inputs[..|inputs| - 1], inputs[|inputs| - 1];
      if IsAsked(Run(before), i) && BoundGrant(Run(before), i.op.sid).value.consumer == consumer
         && HandleDataPlane(Run(before), i.op.sid, i.op.m, i.env).0 != Failed("rate_limited")
      then Answered(before, consumer) + [SW.Hit(i.env.mono, Units(i.op.m))]
      else Answered(before, consumer)
  }

  lemma {:induction false} AskedUnderGrant(a: Authority, i: Input)
    ensures IsAsked(a, i) <==> GrantOf(a, i).Some?
    ensures IsAsked(a, i) ==> GrantOf(a, i) == BoundGrant(a, i.op.sid) && RequestOf(GrantOf(a, i).value, i).weight == Units(i.op.m)
  {
    hide Put;
  }

  predicate ClockMovesForward(inputs: seq<Input>) {
    forall i, j :: 0 <= i <= j < |inputs| ==> inputs[i].env.mono <= inputs[j].env.mono
  }

  /** What the restriction limiters were asked. */
  function AttemptOf(a: Authority, i: Input): (t: Option<RL.Attempt>)
    ensures t.Some? ==> t.value.now == i.env.mono
  {
    match GrantOf(a, i)
    case None => None
    case Some(g) =>
      var ask := AskOf(g, i.op.m, i.env);
      if CheckRate(a, g, i.op.m, i.env).0 && ask.Some? && Reached(g, ask.value.0, ask.value.1, i.env)
      then Some(RL.Attempt(g.id, RulesFor(ActiveLimiters(g.restrictions, ask.value.0, ask.value.1)), i.env.mono)) else None
  }

  function Attempts(inputs: seq<Input>): seq<RL.Attempt>
    decreases |inputs|
  {
    if inputs == [] then []
    else
      var before, i := inputs[..|inputs| - 1], inputs[|inputs| - 1];
      match AttemptOf(Run(before), i)
      case None => Attempts(before)
      case Some(t) => Attempts(before) + [t]
  }

  // ----- One step -----

  lemma {:induction false} RepliesOfServe(a: Authority, sid: string, g: Grant, m: Message, env: Env)
    requires IsDataPlane(m)
    ensures Serve(a, sid, g, m, env).0 != Failed("rate_limited")
  {
    hide Log, Enforce, Expand, AllAllowed, CallAllowed, EntityAllowed, StatesOf, Elements, Dedup, ReadEntities,
      SubscriptionEntities, HistoryEntities, CameraEntities;
    assert "permission_denied"[0] != "rate_limited"[0]
      && "history_limit_exceeded"[0] != "rate_limited"[0] && "unknown_message"[0] != "rate_limited"[0];
  }

  /** A data-plane message past the gate: what it does to the limiters' lists and how its reply tells a refusal. */
  lemma {:induction false} DataPlaneRates(a: Authority, sid: string, m: Message, env: Env)
    requires IsDataPlane(m)
    ensures var (r, b) := HandleDataPlane(a, sid, m, env);
      var gate := RequireGrant(a, sid, env).0;
      if gate.Granted? then
        var (ok, table) := SW.Admit(a.dataPlaneHits, SW.Request(gate.grant.consumer, env.mono, WeightOf(m)), RATE_LIMIT, RATE_WINDOW);
        && b.dataPlaneHits == table && (ok <==> r != Failed("rate_limited"))
        && b.rateHits == (match AttemptOf(a, Input(Receive(sid, m), env))
                          case None => a.rateHits
                          case Some(t) => RL.CheckAndRecord(a.rateHits, t.grant, t.rules, t.now).1)
      else b.dataPlaneHits == a.dataPlaneHits && b.rateHits == a.rateHits
  {
    hide RequireGrant, CheckRate, Serve, AskOf, ServeData, Enforce, SessionEffect, SW.Admit, RL.CheckAndRecord,
      Reached, ActiveLimiters, RulesFor;
    GateEffect(a, sid, env);
    var (gate, b) := RequireGrant(a, sid, env);
    if gate.Granted? {
      var g := gate.grant;
      RateEffect(a, g, m, env);
      var (ok, c) := CheckRate(a, g, m, env);
      if ok {
        RepliesOfServe(c, sid, g, m, env);
        ServeHasEffect(c, sid, g, m, env);
        var ask := AskOf(g, m, env);
        if ask.Some? {
          EnforceEffect(c, g, ask.value.0, ask.value.1, env);
        }
      }
    }
  }

  lemma {:induction false} StepRates(a: Authority, i: Input)
    ensures var b := Step(a, i).1;
      && b.dataPlaneHits
         == (match GrantOf(a, i) case None => a.dataPlaneHits case Some(g) => SW.Admit(a.dataPlaneHits, RequestOf(g, i), RATE_LIMIT, RATE_WINDOW).1)
      && b.rateHits == (match AttemptOf(a, i) case None => a.rateHits case Some(t) => RL.CheckAndRecord(a.rateHits, t.grant, t.rules, t.now).1)
  {
    hide HandleDataPlane, HandleAccessRequest, HandleAuthenticate, HandleClaim, RequireGrant, CheckRate, AskOf, SW.Admit, RL.CheckAndRecord,
      Reached, ActiveLimiters, RevokeGrant, DeleteGrant, SetRestrictions;
    if i.op.Receive? {
      assert i == Input(Receive(i.op.sid, i.op.m), i.env);
      if IsDataPlane(i.op.m) {
        DataPlaneRates(a, i.op.sid, i.op.m, i.env);
      } else {
        SetupFrame(a, i.op.sid, i.op.m, i.env);
      }
    } else {
      OtherFrame(a, i);
    }
  }

  // ----- The data-plane limiter -----

  lemma {:induction false} TableIsRun(inputs: seq<Input>)
    ensures Run(inputs).dataPlaneHits == SW.Run(Requests(inputs), RATE_LIMIT, RATE_WINDOW)
    decreases |inputs|
  {
    hide Step, GrantOf, AttemptOf, SW.Admit, RL.CheckAndRecord;
    if inputs != [] {
      var before, i := inputs[..|inputs| - 1], inputs[|inputs| - 1];
      TableIsRun(before);
      StepRates(Run(before), i);
      var g := GrantOf(Run(before), i);
      if g.Some? {
        SW.OneMoreRequest(Requests(before), RequestOf(g.value, i), "", RATE_LIMIT, RATE_WINDOW);
      }
    }
  }

  /** The messages that were not refused are those that the limiter's full history lists. */
  lemma {:induction false} AnsweredIsHistory(inputs: seq<Input>, consumer: string)
    ensures Answered(inputs, consumer) == SW.History(Requests(inputs), consumer, RATE_LIMIT, RATE_WINDOW)
    decreases |inputs|
  {
    hide Step, HandleDataPlane, RequireGrant, AttemptOf, SW.Admit, RL.CheckAndRecord, Run, IsAsked, Units;
    if inputs != [] {
      var before, i := inputs[..|inputs| - 1], inputs[|inputs| - 1];
      AnsweredIsHistory(before, consumer);
      AskedUnderGrant(Run(before), i);
      var g := GrantOf(Run(before), i);
      if g.Some? {
        TableIsRun(before);
        DataPlaneRates(Run(before), i.op.sid, i.op.m, i.env);
        SW.OneMoreRequest(Requests(before), RequestOf(g.value, i), consumer, RATE_LIMIT, RATE_WINDOW);
      }
    }
  }

  lemma {:induction false} ForwardInit(inputs: seq<Input>)
    requires inputs != [] && ClockMovesForward(inputs)
    ensures ClockMovesForward(inputs[..|inputs| - 1])
    ensures |inputs| > 1 ==> inputs[|inputs| - 2].env.mono <= inputs[|inputs| - 1].env.mono
  {
  }

  function LastMono(inputs: seq<Input>): real {
    if inputs == [] then 0.0 else inputs[|inputs| - 1].env.mono
  }

  lemma {:induction false} RequestsMoveForward(inputs: seq<Input>)
    requires ClockMovesForward(inputs)
    ensures SW.ClockMovesForward(Requests(inputs))
    ensures forall k :: 0 <= k < |Requests(inputs)| ==> inputs != [] && Requests(inputs)[k].now <= LastMono(inputs)
    decreases |inputs|
  {
    hide Run, GrantOf;
    if inputs != [] {
      var before, i := inputs[..|inputs| - 1], inputs[|inputs| - 1];
      var earlier, all := Requests(before), Requests(inputs);
      ForwardInit(inputs);
      RequestsMoveForward(before);
      assert before != [] ==> LastMono(before) <= i.env.mono;
      assert all == earlier || (|all| == |earlier| + 1 && all[..|earlier|] == earlier && all[|earlier|].now == i.env.mono);
      forall k | 0 <= k < |all|
        ensures all[k].now <= i.env.mono && (k < |earlier| ==> all[k] == earlier[k])
      {
        assert k < |earlier| ==> all[k] == earlier[k] && earlier[k].now <= LastMono(before);
      }
      forall j, k | 0 <= j <= k < |all|
        ensures all[j].now <= all[k].now
      {
        assert k < |earlier| ==> all[j] == earlier[j] && all[k] == earlier[k] && earlier[j].now <= earlier[k].now;
        assert all[k].now <= i.env.mono && all[j].now <= i.env.mono;
      }
    }
  }

  /** At every instant of every run, what was answered to a consumer in the minute that ends there weighs at most 240. */
  lemma {:induction false} AnsweredWithinLimit(inputs: seq<Input>, consumer: string, t: real)
    requires ClockMovesForward(inputs)
    ensures SW.WeightIn(Answered(inputs, consumer), t, 60.0) <= 240
  {
    AnsweredIsHistory(inputs, consumer);
    RequestsMoveForward(inputs);
    SW.NeverAboveLimit(Requests(inputs), consumer, RATE_LIMIT, RATE_WINDOW, t);
  }

  /** A message under a good grant is refused for its rate exactly when answering it would make the last minute cost more
      than 240. */
  lemma {:induction false} RefusedExactly(before: seq<Input>, i: Input)
    requires ClockMovesForward(before + [i]) && IsAsked(Run(before), i)
    ensures HandleDataPlane(Run(before), i.op.sid, i.op.m, i.env).0 == Failed("rate_limited")
      <==> SW.WeightIn(Answered(before, BoundGrant(Run(before), i.op.sid).value.consumer), i.env.mono, 60.0) + Units(i.op.m) > 240
  {
    hide HandleDataPlane, RequireGrant, AttemptOf, SW.Admit, RL.CheckAndRecord, Run, SW.WeightIn, ClockMovesForward, Units;
    AskedUnderGrant(Run(before), i);
    var g := GrantOf(Run(before), i).value;
    var inputs := before + [i];
    assert inputs[..|inputs| - 1] == before;
    RequestsMoveForward(inputs);
    assert Requests(inputs) == Requests(before) + [RequestOf(g, i)];
    SW.RefusedExactlyAboveLimit(Requests(before), RequestOf(g, i), RATE_LIMIT, RATE_WINDOW);
    AnsweredIsHistory(before, g.consumer);
    TableIsRun(before);
    DataPlaneRates(Run(before), i.op.sid, i.op.m, i.env);
  }

  // ----- The restriction limiters -----

  lemma {:induction false} HitsAreRun(inputs: seq<Input>)
    ensures Run(inputs).rateHits == LR.Run(Attempts(inputs))
    decreases |inputs|
  {
    hide Step, GrantOf, AttemptOf, SW.Admit, RL.CheckAndRecord;
    if inputs != [] {
      var before, i := inputs[..|inputs| - 1], inputs[|inputs| - 1];
      HitsAreRun(before);
      StepRates(Run(before), i);
      var t := AttemptOf(Run(before), i);
      if t.Some? {
        LR.OneMoreAttempt(Attempts(before), t.value, ("", ""));
      }
    }
  }

  /** In the order of their times, none of them after the bound. */
  predicate InOrder(ts: seq<RL.Attempt>, bound: real) {
    && (forall j, k :: 0 <= j <= k < |ts| ==> ts[j].now <= ts[k].now)
    && (forall k :: 0 <= k < |ts| ==> ts[k].now <= bound)
  }

  lemma {:induction false} OrderKept(ts: seq<RL.Attempt>, bound: real, t: RL.Attempt)
    requires InOrder(ts, bound) && bound <= t.now
    ensures InOrder(ts, t.now) && InOrder(ts + [t], t.now)
  {
  }

  lemma {:induction false} LaterBound(ts: seq<RL.Attempt>, bound: real, later: real)
    requires InOrder(ts, bound) && bound <= later
    ensures InOrder(ts, later)
  {
  }

  lemma {:induction false} AttemptsMoveForward(inputs: seq<Input>)
    requires ClockMovesForward(inputs)
    ensures InOrder(Attempts(inputs), LastMono(inputs))
    decreases |inputs|
  {
    hide Run, AttemptOf, InOrder, ClockMovesForward;
    if inputs == [] {
      assert InOrder([], 0.0) by { NothingInOrder(); }
    } else {
      var before, i := inputs[..|inputs| - 1], inputs[|inputs| - 1];
      ForwardInit(inputs);
      AttemptsMoveForward(before);
      var t := AttemptOf(Run(before), i);
      if before == [] {
        OneInOrder(i.env.mono, t);
      } else if t.Some? {
        OrderKept(Attempts(before), LastMono(before), t.value);
      } else {
        LaterBound(Attempts(before), LastMono(before), i.env.mono);
      }
    }
  }

  lemma {:induction false} NothingInOrder()
    ensures InOrder([], 0.0)
  {
  }

  lemma {:induction false} OneInOrder(now: real, t: Option<RL.Attempt>)
    requires t.Some? ==> t.value.now == now
    ensures InOrder([], now) && (t.Some? ==> InOrder([] + [t.value], now))
  {
  }

  /** A denial adds no hit to any list, and one that is not by a limiter changes none; passing leaves in each list of the grant
      the hits that all windows in force under the id leave, and one more for each limiter in force with the id. */
  lemma {:induction false} EnforcementIsAllOrNothing(a: Authority, g: Grant, operation: string, c: Context, env: Env, k: RL.Key)
    requires operation in {"read", "subscribe", "history", "camera", "action"}
    ensures var rules := LM.LimitersInForce(g.restrictions, operation, c);
      var (ok, b) := Enforce(a, g, operation, c, env);
      var before, after := RL.HitsOf(a.rateHits, k), RL.HitsOf(b.rateHits, k);
      && (!ok ==> multiset(after) <= multiset(before))
      && (ok && k.0 == g.id ==> after == LM.Surviving(before, rules, k.1, env.mono) + seq(LM.HowMany(rules, k.1), _ => env.mono))
      && (k.0 != g.id || LM.HowMany(rules, k.1) == 0 ==> after == before)
    ensures !TermsPermit(g, operation, c, env) ==> Enforce(a, g, operation, c, env).1.rateHits == a.rateHits
  {
    hide Enforce, RL.CheckAndRecord, RL.PrunedBy, RL.Occurrences, RL.Times, ActiveLimiters, Reached, RulesFor, TermsPermit,
      LM.LimitersInForce, LM.Surviving, LM.HowMany, LM.AllMeetTerms;
    var rules := LM.LimitersInForce(g.restrictions, operation, c);
    EnforceEffect(a, g, operation, c, env);
    ReachedExactly(g, operation, c, env);
    LM.LimitersAre(g.restrictions, operation, c);
    RL.DeniedOrRecorded(a.rateHits, g.id, rules, env.mono, k);
    LM.OccurrencesAre(rules, k.1);
    LM.PassesByTerms(a.rateHits, g.id, rules, env.mono);
    if Enforce(a, g, operation, c, env).0 {
      LM.RecordedByTerms(a.rateHits, g.id, rules, env.mono, k);
    }
  }

  /** In every run, the operations that are let through under an id are at least a cooldown apart, if for each of them some
      limiter with the id blocks for so long before any of them prunes the shared list to less. */
  lemma {:induction false} CooldownsHold(inputs: seq<Input>, k: RL.Key, cooldown: real, n: nat)
    requires ClockMovesForward(inputs) && n > 0
    requires forall j :: 0 <= j < |Attempts(inputs)| && LR.Touches(Attempts(inputs)[j], k) ==>
      LR.Guarded(Attempts(inputs)[j].rules, k.1, cooldown, n) && RL.Occurrences(Attempts(inputs)[j].rules, k.1) >= n
    ensures LR.Spaced(LR.Log(Attempts(inputs), k), cooldown)
  {
    hide LR.Log, LR.Spaced, LR.Guarded, RL.Occurrences, LR.Touches, Attempts, ClockMovesForward;
    AttemptsMoveForward(inputs);
    assert InOrder(Attempts(inputs), LastMono(inputs));
    LR.HitsAreSpaced(Attempts(inputs), k, cooldown, n);
  }

  /** ... and no window holds more of them than the limit, if for each of them some limiter with the id counts to it, and
      none prunes the shared list to less than the window. */
  lemma {:induction false} WindowsHold(inputs: seq<Input>, k: RL.Key, window: real, limit: int, n: nat, t: real)
    requires ClockMovesForward(inputs)
    requires forall j :: 0 <= j < |Attempts(inputs)| && LR.Touches(Attempts(inputs)[j], k) ==>
      LR.GuardsWindow(Attempts(inputs)[j].rules, k.1, window, limit) && RL.Occurrences(Attempts(inputs)[j].rules, k.1) >= n
    ensures LR.Within(LR.CountIn(LR.Log(Attempts(inputs), k), t, window), limit, n)
  {
    hide LR.Log, LR.CountIn, LR.GuardsWindow, RL.Occurrences, LR.Touches, Attempts, ClockMovesForward;
    AttemptsMoveForward(inputs);
    assert InOrder(Attempts(inputs), LastMono(inputs));
    LR.WindowsAreBounded(Attempts(inputs), k, window, limit, n, t);
  }

  /** One limiter whose parameters stay the same, and which shares its list with no other active one: its operations are a
      cooldown apart, and no window holds more of them than its limit. */
  lemma {:induction false} LimitersHold(inputs: seq<Input>, k: RL.Key, rule: RL.Rule, t: real)
    requires ClockMovesForward(inputs)
    requires forall j :: 0 <= j < |Attempts(inputs)| && LR.Touches(Attempts(inputs)[j], k) ==>
      RL.Occurrences(Attempts(inputs)[j].rules, k.1) == 1 && RL.RuleOf(Attempts(inputs)[j].rules, k.1) == rule
    ensures LR.Spaced(LR.Log(Attempts(inputs), k), rule.cooldown)
    ensures RL.Counts(rule) ==> (var count := LR.CountIn(LR.Log(Attempts(inputs), k), t, rule.window); count > 0 ==> count <= rule.limit)
  {
    hide LR.Log, LR.CountIn, LR.Spaced, LR.Guarded, LR.GuardsWindow, LR.KeepsAll, RL.Occurrences, RL.RuleOf, RL.Names, Attempts, ClockMovesForward;
    forall j | 0 <= j < |Attempts(inputs)| && LR.Touches(Attempts(inputs)[j], k)
      ensures LR.Guarded(Attempts(inputs)[j].rules, k.1, rule.cooldown, 1)
      ensures RL.Counts(rule) ==> LR.GuardsWindow(Attempts(inputs)[j].rules, k.1, rule.window, rule.limit)
    {
      LR.AloneIsGuarded(Attempts(inputs)[j].rules, k.1);
    }
    CooldownsHold(inputs, k, rule.cooldown, 1);
    if RL.Counts(rule) {
      WindowsHold(inputs, k, rule.window, rule.limit, 1, t);
    }
  }

  /** Everything that is answered with data is on the log of every limiter in force for it. */
  lemma {:induction false} DataIsLogged(before: seq<Input>, i: Input)
    requires i.op.Receive? && IsDataPlane(i.op.m) && IsData(HandleDataPlane(Run(before), i.op.sid, i.op.m, i.env).0)
    ensures AttemptOf(Run(before), i).Some? && LR.Outcome(Attempts(before), AttemptOf(Run(before), i).value) == RL.Pass
    ensures IsAsked(Run(before), i)
    ensures var g, r := BoundGrant(Run(before), i.op.sid).value, HandleDataPlane(Run(before), i.op.sid, i.op.m, i.env).0;
      var t := AttemptOf(Run(before), i).value;
      t.grant == g.id && t.now == i.env.mono
      && exists c :: ContextOf(i.op.m, r, c) && t.rules == LM.LimitersInForce(g.restrictions, OperationOf(r), c)
    ensures Attempts(before + [i]) == Attempts(before) + [AttemptOf(Run(before), i).value]
    ensures forall k ::
      (LR.Touches(AttemptOf(Run(before), i).value, k) ==> LR.Log(Attempts(before + [i]), k) == LR.Log(Attempts(before), k) + [i.env.mono])
  {
    hide RL.CheckAndRecord, LR.Touches, LR.Log, HandleDataPlane, IsAsked, AttemptOf, LM.LimitersInForce, ContextOf, OperationOf, GrantOf;
    var a := Run(before);
    DataPassed(a, i);
    AskedUnderGrant(a, i);
    HitsAreRun(before);
    assert (before + [i])[..|before|] == before;
    forall k
      ensures LR.Touches(AttemptOf(a, i).value, k) ==> LR.Log(Attempts(before + [i]), k) == LR.Log(Attempts(before), k) + [i.env.mono]
    {
      LR.OneMoreAttempt(Attempts(before), AttemptOf(a, i).value, k);
    }
  }

  lemma {:induction false} DataPassed(a: Authority, i: Input)
    requires i.op.Receive? && IsDataPlane(i.op.m) && IsData(HandleDataPlane(a, i.op.sid, i.op.m, i.env).0)
    ensures AttemptOf(a, i).Some? && GrantOf(a, i).Some?
    ensures var t := AttemptOf(a, i).value;
      && t.grant == GrantOf(a, i).value.id && t.now == i.env.mono && RL.CheckAndRecord(a.rateHits, t.grant, t.rules, t.now).0 == RL.Pass
    ensures var g, r, t := GrantOf(a, i).value, HandleDataPlane(a, i.op.sid, i.op.m, i.env).0, AttemptOf(a, i).value;
      exists c :: ContextOf(i.op.m, r, c) && t.rules == LM.LimitersInForce(g.restrictions, OperationOf(r), c)
  {
    hide RequireGrant, CheckRate, Serve, AskOf, Enforce, SessionEffect, RL.CheckAndRecord, Reached, ActiveLimiters,
      RulesFor, ContextOf, ScopeChecked, LM.LimitersInForce;
    GateEffect(a, i.op.sid, i.env);
    var (gate, b) := RequireGrant(a, i.op.sid, i.env);
    if gate.Granted? {
      var g := gate.grant;
      RateEffect(a, g, i.op.m, i.env);
      var (ok, c) := CheckRate(a, g, i.op.m, i.env);
      if ok {
        ServeHasEffect(c, i.op.sid, g, i.op.m, i.env);
        var ask := AskOf(g, i.op.m, i.env).value;
        EnforceEffect(c, g, ask.0, ask.1, i.env);
        LM.LimitersAre(g.restrictions, ask.0, ask.1);
      }
    }
  }

  // ----- Access requests -----

  predicate IsFiled(a: Authority, i: Input, consumer: string) {
    i.op.Receive? && i.op.m.AccessRequestMsg? && i.op.m.consumer == consumer && Handle(a, i.op.sid, i.op.m, i.env).0.RequestPending?
  }

  /** The times of a consumer's access requests that were filed. */
  function Filed(inputs: seq<Input>, consumer: string): seq<real>
    decreases |inputs|
  {
    if inputs == [] then []
    else
      var before, i := inputs[..|inputs| - 1], inputs[|inputs| - 1];
      if IsFiled(Run(before), i, consumer) then Filed(before, consumer) + [i.env.mono] else Filed(before, consumer)
  }

  /** What one step does to the time kept for a consumer. */
  lemma {:induction false} RequestTimesStep(a: Authority, i: Input, consumer: string)
    ensures var b := Step(a, i).1;
      if i.op.Receive? && i.op.m.AccessRequestMsg? && Handle(a, i.op.sid, i.op.m, i.env).0.RequestPending?
      then !TooSoon(a, i.op.m.consumer, i.env.mono) && b.requestTimes == RequestTimes(a.requestTimes, i.op.m.consumer, i.env.mono)
      else b.requestTimes == a.requestTimes
  {
    hide HandleDataPlane, HandleAuthenticate, HandleClaim, RevokeGrant, DeleteGrant, SetRestrictions, RequestTimes, TooSoon;
    if i.op.Receive? {
      if IsDataPlane(i.op.m) {
        DataPlaneFrame(a, i.op.sid, i.op.m, i.env);
      } else if i.op.m.AccessRequestMsg? {
        FileFrame(a, i.op.sid, i.op.m, i.env);
      } else {
        SetupFrame(a, i.op.sid, i.op.m, i.env);
      }
    } else {
      OtherFrame(a, i);
    }
  }

  lemma {:induction false} FileFrame(a: Authority, sid: string, m: Message, env: Env)
    requires m.AccessRequestMsg?
    ensures var (r, b) := HandleAccessRequest(a, sid, m, env);
      if r.RequestPending? then !TooSoon(a, m.consumer, env.mono) && b.requestTimes == RequestTimes(a.requestTimes, m.consumer, env.mono)
      else b.requestTimes == a.requestTimes
  {
    hide StoreSpec.FileRequest, StoreSpec.AppendAudit, RequestTimes, TooSoon, Get, Put;
  }

  /** The time kept is that of the last request, or the interval is over. */
  predicate TimeKept(times: map<string, real>, consumer: string, filed: seq<real>, now: real) {
    && (forall k :: 0 <= k < |filed| ==> filed[k] <= now)
    && (if filed == [] then consumer !in times
        else if consumer in times then times[consumer] == filed[|filed| - 1]
        else now - filed[|filed| - 1] >= REQUEST_INTERVAL)
  }

  lemma {:induction false} TimeStillKept(times: map<string, real>, consumer: string, filed: seq<real>, now: real, later: real, who: string)
    requires TimeKept(times, consumer, filed, now) && now <= later
    ensures TimeKept(times, consumer, filed, later)
    ensures who != consumer ==> TimeKept(RequestTimes(times, who, later), consumer, filed, later)
    ensures TimeKept(RequestTimes(times, consumer, later), consumer, filed + [later], later)
  {
  }

  lemma {:induction false} NextIsSpaced(a: Authority, consumer: string, filed: seq<real>, now: real)
    requires TimeKept(a.requestTimes, consumer, filed, now) && LR.Spaced(filed, REQUEST_INTERVAL) && !TooSoon(a, consumer, now)
    ensures LR.Spaced(filed + [now], REQUEST_INTERVAL)
  {
  }

  lemma {:induction false} NoTimeKept(consumer: string, now: real)
    ensures TimeKept(map[], consumer, [], now) && LR.Spaced([], REQUEST_INTERVAL)
  {
  }

  lemma {:induction false} TimesAreKept(inputs: seq<Input>, consumer: string)
    requires ClockMovesForward(inputs)
    ensures TimeKept(Run(inputs).requestTimes, consumer, Filed(inputs, consumer), LastMono(inputs))
    ensures LR.Spaced(Filed(inputs, consumer), REQUEST_INTERVAL)
    decreases |inputs|
  {
    hide Step, TimeKept, LR.Spaced, RequestTimes, TooSoon, ClockMovesForward;
    if inputs == [] {
      NoTimeKept(consumer, 0.0);
    } else {
      var before, i := inputs[..|inputs| - 1], inputs[|inputs| - 1];
      var a, filed := Run(before), Filed(before, consumer);
      ForwardInit(inputs);
      TimesAreKept(before, consumer);
      RequestTimesStep(a, i, consumer);
      if before == [] {
        NoTimeKept(consumer, i.env.mono);
        assert a.requestTimes == map[] && filed == [];
      } else {
        TimeStillKept(a.requestTimes, consumer, filed, LastMono(before), i.env.mono, consumer);
      }
      if i.op.Receive? && i.op.m.AccessRequestMsg? {
        TimeStillKept(a.requestTimes, consumer, filed, i.env.mono, i.env.mono, i.op.m.consumer);
        if IsFiled(a, i, consumer) {
          NextIsSpaced(a, consumer, filed, i.env.mono);
        }
      }
    }
  }

  /** Although old times are pruned, the access requests of a consumer that are filed are at least five seconds apart. */
  lemma {:induction false} RequestsAreSpaced(inputs: seq<Input>, consumer: string)
    requires ClockMovesForward(inputs)
    ensures LR.Spaced(Filed(inputs, consumer), 5.0)
  {
    TimesAreKept(inputs, consumer);
  }

  /** What an access request is answered: it is filed if it is signed and valid and the consumer's last one that was filed is at
      least five seconds old, under the id of the consumer's pending request or a new one. */
  lemma {:induction false} RequestAnsweredExactly(before: seq<Input>, i: Input)
    requires ClockMovesForward(before + [i]) && i.op.Receive? && i.op.m.AccessRequestMsg?
    ensures var m, filed, r := i.op.m, Filed(before, i.op.m.consumer), Handle(Run(before), i.op.sid, i.op.m, i.env).0;
      if !i.env.signed then r == Failed("bad_signature")
      else if m.manifest.None? then r == Failed("invalid_manifest")
      else if filed != [] && i.env.mono - filed[|filed| - 1] < 5.0 then r == Failed("rate_limited")
      else r.RequestPending?
  {
    hide Run, StoreSpec.FileRequest, StoreSpec.AppendAudit, Bind, RequestTimes, TooSoon, ClockMovesForward, Filed, LR.Spaced;
    var inputs := before + [i];
    assert inputs[..|inputs| - 1] == before;
    ForwardInit(inputs);
    TimesAreKept(before, i.op.m.consumer);
    TooSoonExactly(Run(before), i.op.m.consumer, Filed(before, i.op.m.consumer), LastMono(before), i.env.mono) by {
      if before == [] {
        NothingFiled(i.op.m.consumer);
      }
    }
  }

  lemma {:induction false} NothingFiled(consumer: string)
    ensures Filed([], consumer) == [] && Run([]).requestTimes == map[]
  {
  }

  lemma {:induction false} TooSoonExactly(a: Authority, consumer: string, filed: seq<real>, last: real, now: real)
    requires TimeKept(a.requestTimes, consumer, filed, last)
    requires last <= now || filed == []
    ensures TooSoon(a, consumer, now) <==> filed != [] && now - filed[|filed| - 1] < 5.0
  {
  }
}
