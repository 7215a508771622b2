/** The restriction limiters over every run of attempts, however many of them share a list. */
module LimiterRuns {
  import opened RestrictionLimits

  function Run(attempts: seq<Attempt>): Hits
    decreases |attempts|
  {
    if attempts == [] then map[]
    else
      var a := attempts[|attempts| - 1];
      CheckAndRecord(Run(attempts[..|attempts| - 1]), a.grant, a.rules, a.now).1
  }

  function Outcome(before: seq<Attempt>, a: Attempt): Verdict {
    CheckAndRecord(Run(before), a.grant, a.rules, a.now).0
  }

  /** Some rule of the attempt uses the list. */
  predicate Touches(a: Attempt, k: Key) {
    a.grant == k.0 && Names(a.rules, k.1)
  }

  predicate Admitted(before: seq<Attempt>, a: Attempt, k: Key) {
    Touches(a, k) && Outcome(before, a) == Pass
  }

  /** The times of all admitted attempts that use a list, each once and nothing pruned. */
  function Log(attempts: seq<Attempt>, k: Key): seq<real>
    decreases |attempts|
  {
    if attempts == [] then []
    else
      var before, a := attempts[..|attempts| - 1], attempts[|attempts| - 1];
      if Admitted(before, a, k) then Log(before, k) + [a.now] else Log(before, k)
  }

  /** The list with nothing pruned: for each admitted attempt one hit per rule that uses the list. */
  function Recorded(attempts: seq<Attempt>, k: Key): seq<real>
    decreases |attempts|
  {
    if attempts == [] then []
    else
      var before, a := attempts[..|attempts| - 1], attempts[|attempts| - 1];
      if Admitted(before, a, k) then Recorded(before, k) + Times(a.now, Occurrences(a.rules, k.1)) else Recorded(before, k)
  }

  /** The clock does not go back. */
  predicate Forward(attempts: seq<Attempt>) {
    forall i, j :: 0 <= i <= j < |attempts| ==> attempts[i].now <= attempts[j].now
  }

  predicate By(attempts: seq<Attempt>, t: real) {
    forall i :: 0 <= i < |attempts| ==> attempts[i].now <= t
  }

  predicate Sorted(log: seq<real>) {
    forall i, j :: 0 <= i <= j < |log| ==> log[i] <= log[j]
  }

  predicate AllBy(log: seq<real>, t: real) {
    forall i :: 0 <= i < |log| ==> log[i] <= t
  }

  /** The hits at least the cooldown apart. */
  predicate Spaced(log: seq<real>, cooldown: real) {
    cooldown != 0.0 ==> forall i :: 0 < i < |log| ==> log[i] - log[i - 1] >= cooldown
  }

  /** How many hits fall into `(t - window, t]`. */
  function CountIn(log: seq<real>, t: real, window: real): nat
    decreases |log|
  {
    if log == [] then 0
    else
      var last := log[|log| - 1];
      CountIn(log[..|log| - 1], t, window) + (if t - window < last <= t then 1 else 0)
  }

  lemma {:induction false} OneMoreAttempt(before: seq<Attempt>, a: Attempt, k: Key)
    ensures Run(before + [a]) == CheckAndRecord(Run(before), a.grant, a.rules, a.now).1
    ensures Log(before + [a], k) == if Admitted(before, a, k) then Log(before, k) + [a.now] else Log(before, k)
    ensures Recorded(before + [a], k)
      == if Admitted(before, a, k) then Recorded(before, k) + Times(a.now, Occurrences(a.rules, k.1)) else Recorded(before, k)
  {
    hide CheckAndRecord, Times, Occurrences, Admitted;
    assert (before + [a])[..|before|] == before;
  }

  lemma {:induction false} ForwardInit(before: seq<Attempt>, a: Attempt)
    requires Forward(before + [a])
    ensures Forward(before) && By(before, a.now) && By(before + [a], a.now)
  {
    var all := before + [a];
    forall i | 0 <= i < |before|
      ensures before[i] == all[i] && before[i].now <= a.now
    {
      assert all[i].now <= all[|before|].now;
    }
  }

  /** The log is in order of time and does not run ahead of the clock. */
  lemma {:induction false} LogInOrder(attempts: seq<Attempt>, k: Key, t: real)
    requires Forward(attempts) && By(attempts, t)
    ensures Sorted(Log(attempts, k)) && AllBy(Log(attempts, k), t)
    decreases |attempts|
  {
    if attempts != [] {
      hide Admitted, Recorded, Run;
      var before, a := attempts[..|attempts| - 1], attempts[|attempts| - 1];
      assert before + [a] == attempts;
      ForwardInit(before, a);
      LogInOrder(before, k, a.now);
    }
  }

  /** What an attempt does to a list: nothing, pruning if it is denied, pruning and recording if it is admitted. */
  lemma {:induction false} ListStep(before: seq<Attempt>, a: Attempt, k: Key) returns (n: nat)
    ensures n <= |a.rules|
    ensures var hits, after := HitsOf(Run(before), k), HitsOf(Run(before + [a]), k);
      if !Touches(a, k) then after == hits
      else if Admitted(before, a, k) then
        after == PrunedBy(hits, a.rules, k.1, a.now) + Times(a.now, Occurrences(a.rules, k.1))
      else
        && after == PrunedBy(hits, a.rules[..n], k.1, a.now)
        && after == HitsOf(CheckRules(Run(before), a.grant, a.rules, a.now).1, k)
  {
    hide CheckRules, Record, Run, PrunedBy, Occurrences, Times, Names;
    OneMoreAttempt(before, a, k);
    DeniedOrRecorded(Run(before), a.grant, a.rules, a.now, k);
    NamedOccurs(a.rules, k.1);
    n := ChecksPrune(Run(before), a.grant, a.rules, a.now, k);
  }

  // ----- What is recent stays in the list -----

  predicate Keeps(rule: Rule, window: real) {
    Counts(rule) ==> rule.window >= window
  }

  /** No rule with the id prunes to less than the window. */
  predicate KeepsAll(rules: seq<Rule>, id: string, window: real) {
    forall i :: 0 <= i < |rules| && rules[i].id == id ==> Keeps(rules[i], window)
  }

  /** ... in any attempt, while the clock does not go back. */
  ghost predicate WindowKept(attempts: seq<Attempt>, k: Key, window: real) {
    && Forward(attempts)
    && forall i :: 0 <= i < |attempts| && Touches(attempts[i], k) ==> KeepsAll(attempts[i].rules, k.1, window)
  }

  lemma {:induction false} WindowKeptInit(before: seq<Attempt>, a: Attempt, k: Key, window: real)
    requires WindowKept(before + [a], k, window)
    ensures WindowKept(before, k, window) && By(before, a.now) && (Touches(a, k) ==> KeepsAll(a.rules, k.1, window))
  {
    hide Touches, KeepsAll;
    ForwardInit(before, a);
    assert (before + [a])[|before|] == a;
    assert forall i :: 0 <= i < |before| ==> (before + [a])[i] == before[i];
  }

  lemma {:induction false} RecentAppend(a: seq<real>, b: seq<real>, now: real, window: real)
    ensures Recent(a + b, now, window) == Recent(a, now, window) + Recent(b, now, window)
    decreases |b|
  {
    if b == [] {
      assert a + b == a;
    } else {
      RecentAppend(a, b[..|b| - 1], now, window);
      assert (a + b)[..|a + b| - 1] == a + b[..|b| - 1];
    }
  }

  lemma {:induction false} RecentOfRecent(hits: seq<real>, now: real, wide: real, later: real, window: real)
    requires now <= later && window <= wide
    ensures Recent(Recent(hits, now, wide), later, window) == Recent(hits, later, window)
    decreases |hits|
  {
    if hits != [] {
      var rest, last := Recent(hits[..|hits| - 1], now, wide), hits[|hits| - 1];
      RecentOfRecent(hits[..|hits| - 1], now, wide, later, window);
      if now - last < wide {
        assert (rest + [last])[..|rest|] == rest;
      }
    }
  }

  lemma {:induction false} RecentOfPruned(hits: seq<real>, rules: seq<Rule>, id: string, now: real, later: real, window: real)
    requires KeepsAll(rules, id, window) && now <= later
    ensures Recent(PrunedBy(hits, rules, id, now), later, window) == Recent(hits, later, window)
    decreases |rules|
  {
    if rules != [] {
      hide Recent;
      if rules[0].id == id && Counts(rules[0]) {
        RecentOfRecent(hits, now, rules[0].window, later, window);
      }
      RecentOfPruned(if rules[0].id == id then Checked(hits, rules[0], now) else hits, rules[1..], id, now, later, window);
    }
  }

  /** As far as a window reaches back that no rule prunes to less than, the list is the full record. */
  lemma {:induction false} ListIsRecord(attempts: seq<Attempt>, k: Key, window: real, later: real)
    requires WindowKept(attempts, k, window) && By(attempts, later)
    ensures Recent(HitsOf(Run(attempts), k), later, window) == Recent(Recorded(attempts, k), later, window)
    decreases |attempts|
  {
    if attempts != [] {
      hide Run, Recorded, Recent, PrunedBy, Occurrences, Times, CheckRules, Outcome, Touches, WindowKept;
      var before, a := attempts[..|attempts| - 1], attempts[|attempts| - 1];
      assert before + [a] == attempts;
      WindowKeptInit(before, a, k, window);
      ListIsRecord(before, k, window, later);
      OneMoreAttempt(before, a, k);
      var n := ListStep(before, a, k);
      if Touches(a, k) {
        var hits, copies := HitsOf(Run(before), k), Times(a.now, Occurrences(a.rules, k.1));
        RecentOfPruned(hits, a.rules, k.1, a.now, later, window);
        RecentOfPruned(hits, a.rules[..n], k.1, a.now, later, window);
        RecentAppend(PrunedBy(hits, a.rules, k.1, a.now), copies, later, window);
        RecentAppend(Recorded(before, k), copies, later, window);
      }
    } else {
      assert HitsOf(Run([]), k) == [];
    }
  }

  // ----- Windows -----

  /** Some rule with the id counts to the limit at most in the window at least, and none prunes to less. */
  predicate GuardsWindow(rules: seq<Rule>, id: string, window: real, limit: int) {
    && KeepsAll(rules, id, window)
    && exists i :: 0 <= i < |rules| && rules[i].id == id && Counts(rules[i]) && rules[i].window >= window && rules[i].limit <= limit
  }

  /** ... in every attempt that uses the list, with at least `n` rules. */
  ghost predicate WindowGuarded(attempts: seq<Attempt>, k: Key, window: real, limit: int, n: nat) {
    && Forward(attempts)
    && forall i :: 0 <= i < |attempts| && Touches(attempts[i], k) ==>
      GuardsWindow(attempts[i].rules, k.1, window, limit) && Occurrences(attempts[i].rules, k.1) >= n
  }

  lemma {:induction false} WindowGuardedInit(before: seq<Attempt>, a: Attempt, k: Key, window: real, limit: int, n: nat)
    requires WindowGuarded(before + [a], k, window, limit, n)
    ensures WindowGuarded(before, k, window, limit, n) && By(before, a.now) && WindowKept(before, k, window)
    ensures Touches(a, k) ==> GuardsWindow(a.rules, k.1, window, limit) && Occurrences(a.rules, k.1) >= n
  {
    hide Touches, KeepsAll, Occurrences;
    ForwardInit(before, a);
    assert (before + [a])[|before|] == a;
    assert forall i :: 0 <= i < |before| ==> (before + [a])[i] == before[i];
  }

  lemma {:induction false} RecentIsCount(log: seq<real>, now: real, window: real)
    requires AllBy(log, now)
    ensures |Recent(log, now, window)| == CountIn(log, now, window)
    decreases |log|
  {
    if log != [] {
      RecentIsCount(log[..|log| - 1], now, window);
    }
  }

  lemma {:induction false} WiderCountsMore(hits: seq<real>, now: real, window: real, wide: real)
    requires window <= wide
    ensures |Recent(hits, now, window)| <= |Recent(hits, now, wide)|
    decreases |hits|
  {
    if hits != [] {
      WiderCountsMore(hits[..|hits| - 1], now, window, wide);
    }
  }

  lemma {:induction false} RecentOfTimes(h: real, n: nat, now: real, window: real)
    ensures Recent(Times(h, n), now, window) == if now - h < window then Times(h, n) else []
    decreases n
  {
    if n > 0 {
      RecentOfTimes(h, n - 1, now, window);
      assert Times(h, n)[..n - 1] == Times(h, n - 1);
      assert Times(h, n) == Times(h, n - 1) + [h];
    }
  }

  /** Each admitted attempt has left at least `n` hits. */
  lemma {:induction false} RecordIsMultiple(attempts: seq<Attempt>, k: Key, window: real, limit: int, n: nat, later: real)
    requires WindowGuarded(attempts, k, window, limit, n)
    ensures |Recent(Recorded(attempts, k), later, window)| >= n * |Recent(Log(attempts, k), later, window)|
    decreases |attempts|
  {
    if attempts != [] {
      hide Run, Recorded, Log, Occurrences, Times, Outcome, Touches, WindowGuarded, Recent;
      var before, a := attempts[..|attempts| - 1], attempts[|attempts| - 1];
      assert before + [a] == attempts;
      WindowGuardedInit(before, a, k, window, limit, n);
      RecordIsMultiple(before, k, window, limit, n, later);
      OneMoreAttempt(before, a, k);
      if Admitted(before, a, k) {
        var copies := Occurrences(a.rules, k.1);
        RecentAppend(Recorded(before, k), Times(a.now, copies), later, window);
        RecentAppend(Log(before, k), [a.now], later, window);
        RecentOfTimes(a.now, copies, later, window);
        TimesSize(a.now, copies);
        OneRecent(a.now, later, window);
        if later - a.now < window {
          OneMore(n, |Recent(Log(before, k), later, window)|, |Recent(Recorded(before, k), later, window)|, copies);
        }
      }
    } else {
      assert Log([], k) == [];
    }
  }

  lemma {:induction false} OneMore(n: nat, x: nat, y: nat, copies: nat)
    requires y >= n * x && copies >= n
    ensures y + copies >= n * (x + 1)
  {
  }

  lemma {:induction false} TimesSize(h: real, n: nat)
    ensures |Times(h, n)| == n
  {
  }

  lemma {:induction false} OneRecent(h: real, now: real, window: real)
    ensures |Recent([h], now, window)| == if now - h < window then 1 else 0
  {
    assert [h][..0] == [];
  }

  /** An attempt is admitted only if the full log leaves room for it. */
  lemma {:induction false} RoomLeft(before: seq<Attempt>, a: Attempt, k: Key, window: real, limit: int, n: nat)
    requires WindowGuarded(before + [a], k, window, limit, n) && Admitted(before, a, k)
    ensures n * CountIn(Log(before, k), a.now, window) < limit
  {
    hide Run, Recorded, Log, PrunedBy, Occurrences, CheckRules, Record, WindowGuarded, WindowKept, CountIn, Recent, KeepsAll, Names;
    WindowGuardedInit(before, a, k, window, limit, n);
    var hits := HitsOf(Run(before), k);
    var i :| 0 <= i < |a.rules| && a.rules[i].id == k.1 && Counts(a.rules[i]) && a.rules[i].window >= window && a.rules[i].limit <= limit;
    PassesExactly(Run(before), a.grant, a.rules, a.now);
    assert PassesAt(Run(before), a.grant, a.rules, i, a.now);
    var left := PrunedBy(hits, a.rules[..i], k.1, a.now);
    assert |Recent(left, a.now, a.rules[i].window)| < limit;
    WiderCountsMore(left, a.now, window, a.rules[i].window);
    KeepsPrefix(a.rules, k.1, window, i);
    RecentOfPruned(hits, a.rules[..i], k.1, a.now, a.now, window);
    ListIsRecord(before, k, window, a.now);
    RecordIsMultiple(before, k, window, limit, n, a.now);
    LogForward(before, k, a.now, window, limit, n);
    RecentIsCount(Log(before, k), a.now, window);
  }

  lemma {:induction false} KeepsPrefix(rules: seq<Rule>, id: string, window: real, i: nat)
    requires KeepsAll(rules, id, window) && i <= |rules|
    ensures KeepsAll(rules[..i], id, window)
  {
  }

  lemma {:induction false} LogForward(attempts: seq<Attempt>, k: Key, t: real, window: real, limit: int, n: nat)
    requires WindowGuarded(attempts, k, window, limit, n) && By(attempts, t)
    ensures AllBy(Log(attempts, k), t)
  {
    LogInOrder(attempts, k, t);
  }

  lemma {:induction false} LaterCount(log: seq<real>, s: real, t: real, window: real)
    requires s <= t && AllBy(log, s)
    ensures CountIn(log, t, window) <= CountIn(log, s, window)
    decreases |log|
  {
    if log != [] {
      LaterCount(log[..|log| - 1], s, t, window);
    }
  }

  /** As many as first reach the limit, with `n` hits for each. */
  predicate Within(count: nat, limit: int, n: nat) {
    count > 0 ==> n * (count - 1) < limit
  }

  lemma {:induction false} RoomForOne(log: seq<real>, now: real, t: real, window: real, limit: int, n: nat)
    requires AllBy(log, now) && n * CountIn(log, now, window) < limit && Within(CountIn(log, t, window), limit, n)
    ensures Within(CountIn(log + [now], t, window), limit, n)
  {
    assert (log + [now])[..|log|] == log;
    if t >= now {
      LaterCount(log, now, t, window);
      MultipleGrows(n, CountIn(log, t, window), CountIn(log, now, window));
    }
  }

  /** No window holds more admitted attempts than the limit: with `n` hits for each, only as many as first reach it. */
  lemma {:induction false} WindowsAreBounded(attempts: seq<Attempt>, k: Key, window: real, limit: int, n: nat, t: real)
    requires WindowGuarded(attempts, k, window, limit, n)
    ensures Within(CountIn(Log(attempts, k), t, window), limit, n)
    decreases |attempts|
  {
    if attempts != [] {
      hide Run, Log, Outcome, Touches, WindowGuarded, Recorded, CountIn;
      var before, a := attempts[..|attempts| - 1], attempts[|attempts| - 1];
      assert before + [a] == attempts;
      WindowGuardedInit(before, a, k, window, limit, n);
      WindowsAreBounded(before, k, window, limit, n, t);
      OneMoreAttempt(before, a, k);
      if Admitted(before, a, k) {
        var log := Log(before, k);
        RoomLeft(before, a, k, window, limit, n);
        LogForward(before, k, a.now, window, limit, n);
        RoomForOne(log, a.now, t, window, limit, n);
      }
    } else {
      assert Log([], k) == [];
    }
  }

  lemma {:induction false} MultipleGrows(n: nat, a: nat, b: nat)
    requires a <= b
    ensures n * a <= n * b
  {
  }

  // ----- Cooldowns -----

  /** Denies while there are `n` hits less than `cooldown` ago: by its own cooldown, or because they reach its limit. */
  predicate Blocks(rule: Rule, cooldown: real, n: nat) {
    rule.cooldown >= cooldown || (Counts(rule) && rule.window >= cooldown && rule.limit <= n)
  }

  /** In order of the rules with the id, one that blocks comes before any that prunes to less than the cooldown. */
  predicate Guarded(rules: seq<Rule>, id: string, cooldown: real, n: nat)
    decreases |rules|
  {
    rules != [] &&
    if rules[0].id == id then Blocks(rules[0], cooldown, n) || (Keeps(rules[0], cooldown) && Guarded(rules[1..], id, cooldown, n))
    else Guarded(rules[1..], id, cooldown, n)
  }

  /** ... in every attempt that uses the list, with at least `n` rules. */
  ghost predicate CooldownGuarded(attempts: seq<Attempt>, k: Key, cooldown: real, n: nat) {
    && Forward(attempts)
    && forall i :: 0 <= i < |attempts| && Touches(attempts[i], k) ==>
      Guarded(attempts[i].rules, k.1, cooldown, n) && Occurrences(attempts[i].rules, k.1) >= n
  }

  lemma {:induction false} CooldownGuardedInit(before: seq<Attempt>, a: Attempt, k: Key, cooldown: real, n: nat)
    requires CooldownGuarded(before + [a], k, cooldown, n)
    ensures CooldownGuarded(before, k, cooldown, n) && By(before, a.now) && Forward(before)
    ensures Touches(a, k) ==> Guarded(a.rules, k.1, cooldown, n) && Occurrences(a.rules, k.1) >= n
  {
    hide Touches, Guarded, Occurrences;
    ForwardInit(before, a);
    assert (before + [a])[|before|] == a;
    assert forall i :: 0 <= i < |before| ==> (before + [a])[i] == before[i];
  }

  /** The list ends in `n` hits at the given time. */
  predicate Ends(hits: seq<real>, last: real, n: nat) {
    |hits| >= n && hits[|hits| - n..] == Times(last, n)
  }

  lemma {:induction false} RecentEnds(hits: seq<real>, last: real, n: nat, now: real, window: real)
    requires Ends(hits, last, n) && now - last < window
    ensures Ends(Recent(hits, now, window), last, n) && |Recent(hits, now, window)| >= n
  {
    var m := |hits| - n;
    assert hits == hits[..m] + hits[m..];
    RecentAppend(hits[..m], hits[m..], now, window);
    RecentOfTimes(last, n, now, window);
  }

  /** While the last hit is less than the cooldown ago, the checks deny and leave it in the list. */
  lemma {:induction false} CheckKeepsEnd(m: Hits, k: Key, rules: seq<Rule>, now: real, last: real, cooldown: real, n: nat)
    requires Guarded(rules, k.1, cooldown, n) && n > 0 && last <= now && now - last < cooldown
    requires Ends(HitsOf(m, k), last, n)
    ensures CheckRules(m, k.0, rules, now).0 != Pass
    ensures Ends(HitsOf(CheckRules(m, k.0, rules, now).1, k), last, n)
    decreases |rules|
  {
    hide Recent, Ends, Times;
    var rule, hits := rules[0], HitsOf(m, k);
    var k0 := (k.0, rule.id);
    var m1 := m[k0 := Checked(HitsOf(m, k0), rule, now)];
    if rule.id == k.1 {
      EndIsLast(hits, last, n);
      if Counts(rule) && now - last < rule.window {
        RecentEnds(hits, last, n, now, rule.window);
      }
      assert Ends(HitsOf(m1, k), last, n);
      if Check(hits, rule, now) == Pass {
        assert !Blocks(rule, cooldown, n);
        CheckKeepsEnd(m1, k, rules[1..], now, last, cooldown, n);
      }
    } else {
      assert HitsOf(m1, k) == hits;
      if Check(HitsOf(m, k0), rule, now) == Pass {
        CheckKeepsEnd(m1, k, rules[1..], now, last, cooldown, n);
      }
    }
  }

  lemma {:induction false} EndIsLast(hits: seq<real>, last: real, n: nat)
    requires Ends(hits, last, n) && n > 0
    ensures hits != [] && hits[|hits| - 1] == last
  {
    assert hits[|hits| - 1] == hits[|hits| - n..][n - 1];
  }

  /** Either the last admitted attempt is over for the cooldown, or its hits end the list. */
  predicate Remembers(hits: seq<real>, log: seq<real>, now: real, cooldown: real, n: nat) {
    log != [] && now - log[|log| - 1] < cooldown ==> Ends(hits, log[|log| - 1], n)
  }

  lemma {:induction false} CooldownStep(before: seq<Attempt>, a: Attempt, k: Key, cooldown: real, n: nat)
    requires CooldownGuarded(before + [a], k, cooldown, n) && n > 0
    requires Remembers(HitsOf(Run(before), k), Log(before, k), a.now, cooldown, n) && AllBy(Log(before, k), a.now)
    ensures Admitted(before, a, k) && Log(before, k) != [] ==> a.now - Log(before, k)[|Log(before, k)| - 1] >= cooldown
    ensures Remembers(HitsOf(Run(before + [a]), k), Log(before + [a], k), a.now, cooldown, n)
  {
    hide Run, Log, Recorded, CheckRules, Record, PrunedBy, Occurrences, Guarded, Ends, CooldownGuarded, Names;
    CooldownGuardedInit(before, a, k, cooldown, n);
    OneMoreAttempt(before, a, k);
    var i := ListStep(before, a, k);
    var log := Log(before, k);
    if Touches(a, k) {
      if log != [] && a.now - log[|log| - 1] < cooldown {
        CheckKeepsEnd(Run(before), k, a.rules, a.now, log[|log| - 1], cooldown, n);
      }
      if Admitted(before, a, k) {
        NewEnd(PrunedBy(HitsOf(Run(before), k), a.rules, k.1, a.now), a.now, Occurrences(a.rules, k.1), n);
      }
    }
  }

  lemma {:induction false} NewEnd(hits: seq<real>, now: real, copies: nat, n: nat)
    requires n <= copies
    ensures Ends(hits + Times(now, copies), now, n)
  {
  }

  /** Time only helps. */
  lemma {:induction false} RemembersLater(hits: seq<real>, log: seq<real>, now: real, later: real, cooldown: real, n: nat)
    requires Remembers(hits, log, now, cooldown, n) && now <= later
    ensures Remembers(hits, log, later, cooldown, n)
  {
  }

  lemma {:induction false} RemembersAlways(attempts: seq<Attempt>, k: Key, later: real, cooldown: real, n: nat)
    requires CooldownGuarded(attempts, k, cooldown, n) && n > 0 && By(attempts, later)
    ensures Remembers(HitsOf(Run(attempts), k), Log(attempts, k), later, cooldown, n)
    ensures Spaced(Log(attempts, k), cooldown)
    decreases |attempts|
  {
    if attempts != [] {
      hide Run, Log, Recorded, Admitted, Remembers, CooldownGuarded;
      var before, a := attempts[..|attempts| - 1], attempts[|attempts| - 1];
      assert before + [a] == attempts;
      CooldownGuardedInit(before, a, k, cooldown, n);
      RemembersAlways(before, k, a.now, cooldown, n);
      LogInOrder(before, k, a.now);
      CooldownStep(before, a, k, cooldown, n);
      OneMoreAttempt(before, a, k);
      RemembersLater(HitsOf(Run(attempts), k), Log(attempts, k), a.now, later, cooldown, n);
    } else {
      assert Log([], k) == [];
    }
  }

  /** Attempts that are admitted are at least the cooldown apart. */
  lemma {:induction false} HitsAreSpaced(attempts: seq<Attempt>, k: Key, cooldown: real, n: nat)
    requires CooldownGuarded(attempts, k, cooldown, n) && n > 0
    ensures Spaced(Log(attempts, k), cooldown)
  {
    hide CooldownGuarded, Spaced, Log;
    if attempts != [] {
      LastIsLatest(attempts, k, cooldown, n);
      RemembersAlways(attempts, k, attempts[|attempts| - 1].now, cooldown, n);
    } else {
      RemembersAlways(attempts, k, 0.0, cooldown, n);
    }
  }

  lemma {:induction false} LastIsLatest(attempts: seq<Attempt>, k: Key, cooldown: real, n: nat)
    requires CooldownGuarded(attempts, k, cooldown, n) && attempts != []
    ensures By(attempts, attempts[|attempts| - 1].now)
  {
  }

  // ----- The verdict -----

  lemma {:induction false} ListIsPart(attempts: seq<Attempt>, k: Key)
    ensures multiset(HitsOf(Run(attempts), k)) <= multiset(Recorded(attempts, k))
    decreases |attempts|
  {
    if attempts != [] {
      hide Run, Recorded, PrunedBy, Occurrences, Times, CheckRules, Admitted, Touches;
      var before, a := attempts[..|attempts| - 1], attempts[|attempts| - 1];
      assert before + [a] == attempts;
      ListIsPart(before, k);
      OneMoreAttempt(before, a, k);
      var n := ListStep(before, a, k);
      PrunedIsPart(HitsOf(Run(before), k), a.rules, k.1, a.now);
      PrunedIsPart(HitsOf(Run(before), k), a.rules[..n], k.1, a.now);
    } else {
      assert HitsOf(Run([]), k) == [];
    }
  }

  lemma {:induction false} TimesAre(h: real, n: nat)
    ensures forall x :: x in Times(h, n) ==> x == h
    ensures n > 0 ==> Times(h, n) != [] && Times(h, n)[|Times(h, n)| - 1] == h
  {
  }

  /** The record holds the times of the log, and ends where the log ends. */
  lemma {:induction false} RecordIsOfLog(attempts: seq<Attempt>, k: Key)
    ensures Among(Recorded(attempts, k), Log(attempts, k))
    ensures Recorded(attempts, k) == [] <==> Log(attempts, k) == []
    ensures Log(attempts, k) != [] ==> Recorded(attempts, k)[|Recorded(attempts, k)| - 1] == Log(attempts, k)[|Log(attempts, k)| - 1]
    decreases |attempts|
  {
    if attempts != [] {
      hide Run, Recorded, Log, Occurrences, Times, Outcome, Names;
      var before, a := attempts[..|attempts| - 1], attempts[|attempts| - 1];
      assert before + [a] == attempts;
      RecordIsOfLog(before, k);
      OneMoreAttempt(before, a, k);
      if Admitted(before, a, k) {
        NamedOccurs(a.rules, k.1);
        TimesAre(a.now, Occurrences(a.rules, k.1));
      }
    } else {
      assert Log([], k) == [] && Recorded([], k) == [];
    }
  }

  lemma {:induction false} SortedLast(log: seq<real>, x: real)
    requires Sorted(log) && x in log
    ensures x <= log[|log| - 1]
  {
  }

  /** Although the list is pruned, by all rules that share it, a limiter decides on it as it would on the full record, if
      none of them prunes to less than its window, and its cooldown is guarded. */
  lemma {:induction false} VerdictOnFullRecord(before: seq<Attempt>, k: Key, rule: Rule, now: real)
    requires CooldownGuarded(before, k, rule.cooldown, 1) && By(before, now)
    requires Counts(rule) ==> WindowKept(before, k, rule.window)
    ensures Check(HitsOf(Run(before), k), rule, now) == Check(Recorded(before, k), rule, now)
  {
    hide Run, Log, Recorded, Recent, CooldownGuarded, WindowKept, Sorted;
    var hits, log, all := HitsOf(Run(before), k), Log(before, k), Recorded(before, k);
    RemembersAlways(before, k, now, rule.cooldown, 1);
    InForward(before, k, rule.cooldown);
    LogInOrder(before, k, now);
    ListIsPart(before, k);
    RecordIsOfLog(before, k);
    if Counts(rule) {
      ListIsRecord(before, k, rule.window, now);
    }
    if hits != [] {
      var x := hits[|hits| - 1];
      assert x in multiset(hits);
      assert x in multiset(all);
      SortedLast(log, x);
      if now - log[|log| - 1] < rule.cooldown {
        EndIsLast(hits, log[|log| - 1], 1);
      }
    }
  }

  lemma {:induction false} InForward(attempts: seq<Attempt>, k: Key, cooldown: real)
    requires CooldownGuarded(attempts, k, cooldown, 1)
    ensures Forward(attempts)
  {
  }

  /** A rule that shares its list with no other guards its own cooldown and its own window. */
  lemma {:induction false} AloneIsGuarded(rules: seq<Rule>, id: string)
    requires Occurrences(rules, id) == 1 && Names(rules, id)
    ensures var rule := RuleOf(rules, id);
      && Guarded(rules, id, rule.cooldown, 1) && KeepsAll(rules, id, rule.window)
      && (Counts(rule) ==> GuardsWindow(rules, id, rule.window, rule.limit))
    decreases |rules|
  {
    NamesHeadOrTail(rules, id);
    NamedOccurs(rules[1..], id);
    var rule := RuleOf(rules, id);
    if rules[0].id == id {
      assert forall i :: 0 < i < |rules| ==> rules[1..][i - 1] == rules[i];
    } else {
      AloneIsGuarded(rules[1..], id);
      forall i | 0 <= i < |rules| && rules[i].id == id
        ensures Keeps(rules[i], rule.window)
      {
        assert rules[1..][i - 1] == rules[i];
      }
      if Counts(rule) {
        var i := FirstNamed(rules, id);
        assert rules[i] == rule;
      }
    }
  }

  // ----- When a shared list forgets -----

  /** Attempts of one grant, all under the same rules. */
  ghost predicate Uniform(attempts: seq<Attempt>, grant: string, rules: seq<Rule>) {
    Forward(attempts) && forall i :: 0 <= i < |attempts| ==> attempts[i].grant == grant && attempts[i].rules == rules
  }

  /** Whenever attempts are made under these rules, the admitted ones are at least the cooldown apart. */
  ghost predicate KeepsCooldown(rules: seq<Rule>, id: string, cooldown: real) {
    forall attempts, grant :: Uniform(attempts, grant, rules) ==> Spaced(Log(attempts, (grant, id)), cooldown)
  }

  /** A negative limit is reached by an empty list. */
  predicate AlwaysDenies(rules: seq<Rule>) {
    exists i :: 0 <= i < |rules| && Counts(rules[i]) && rules[i].limit < 0
  }

  predicate AllNamed(rules: seq<Rule>, id: string) {
    forall i :: 0 <= i < |rules| ==> rules[i].id == id
  }

  lemma {:induction false} AllOccur(rules: seq<Rule>, id: string)
    requires AllNamed(rules, id)
    ensures Occurrences(rules, id) == |rules|
    decreases |rules|
  {
    if rules != [] {
      AllOccur(rules[1..], id);
    }
  }

  /** With nothing in the list, every rule passes. */
  lemma {:induction false} EmptyPasses(m: Hits, k: Key, rules: seq<Rule>, now: real)
    requires AllNamed(rules, k.1) && !AlwaysDenies(rules) && HitsOf(m, k) == []
    ensures CheckRules(m, k.0, rules, now).0 == Pass && HitsOf(CheckRules(m, k.0, rules, now).1, k) == []
    decreases |rules|
  {
    if rules != [] {
      assert (k.0, rules[0].id) == k;
      TailDenies(rules);
      EmptyPasses(m[k := Checked([], rules[0], now)], k, rules[1..], now);
    }
  }

  lemma {:induction false} TailDenies(rules: seq<Rule>)
    requires rules != [] && !AlwaysDenies(rules)
    ensures !AlwaysDenies(rules[1..]) && (Counts(rules[0]) ==> rules[0].limit > 0)
  {
    assert forall i :: 0 <= i < |rules[1..]| ==> rules[1..][i] == rules[i + 1];
  }

  /** `t` comes after every cooldown and window that is shorter than the given cooldown. */
  predicate AfterShorter(rules: seq<Rule>, cooldown: real, t: real) {
    forall i :: 0 <= i < |rules| ==>
      (rules[i].cooldown < cooldown ==> rules[i].cooldown <= t) && (rules[i].window < cooldown ==> rules[i].window <= t)
  }

  /** Before the cooldown is over, an unguarded list lets a second attempt pass: some rule prunes the hits of the first
      before any rule blocks on them. */
  lemma {:induction false} UnguardedPasses(m: Hits, k: Key, rules: seq<Rule>, cooldown: real, n: nat, t: real)
    requires AllNamed(rules, k.1) && !AlwaysDenies(rules) && AfterShorter(rules, cooldown, t) && 0.0 <= t < cooldown
    requires HitsOf(m, k) == Times(0.0, n) && !Guarded(rules, k.1, cooldown, n)
    ensures CheckRules(m, k.0, rules, t).0 == Pass
    ensures !KeepsAll(rules, k.1, cooldown) ==> HitsOf(CheckRules(m, k.0, rules, t).1, k) == []
    decreases |rules|
  {
    if rules != [] {
      hide Recent, Times;
      var rule, hits := rules[0], HitsOf(m, k);
      assert (k.0, rule.id) == k;
      TailDenies(rules);
      RecentOfTimes(0.0, n, t, rule.window);
      TimesSize(0.0, n);
      TimesAre(0.0, n);
      assert Check(hits, rule, t) == Pass;
      if Keeps(rule, cooldown) {
        UnguardedPasses(m[k := Checked(hits, rule, t)], k, rules[1..], cooldown, n, t);
      } else {
        EmptyPasses(m[k := Checked(hits, rule, t)], k, rules[1..], t);
      }
    }
  }

  /** Under an unguarded list two attempts within the cooldown are both admitted. */
  lemma {:induction false} TwoAdmitted(grant: string, rules: seq<Rule>, id: string, cooldown: real, t: real)
    requires rules != [] && AllNamed(rules, id) && !AlwaysDenies(rules) && AfterShorter(rules, cooldown, t) && 0.0 <= t < cooldown
    requires !Guarded(rules, id, cooldown, |rules|)
    ensures Log([Attempt(grant, rules, 0.0), Attempt(grant, rules, t)], (grant, id)) == [0.0, t]
    ensures Uniform([Attempt(grant, rules, 0.0), Attempt(grant, rules, t)], grant, rules)
  {
    hide CheckRules, Record, Guarded, Log, Run, Recorded, Occurrences, Times, AlwaysDenies;
    var k, a, b := (grant, id), Attempt(grant, rules, 0.0), Attempt(grant, rules, t);
    assert Names(rules, id) by { assert rules[0].id == id; }
    AllOccur(rules, id);
    NothingYet(k);
    EmptyPasses(Run([]), k, rules, 0.0);
    OneMoreAttempt([], a, k);
    assert [] + [a] == [a] && [a] + [b] == [a, b];
    RecordsPerRule(CheckRules(Run([]), grant, rules, 0.0).1, grant, rules, 0.0, k);
    UnguardedPasses(Run([a]), k, rules, cooldown, |rules|, t);
    OneMoreAttempt([a], b, k);
  }

  lemma {:induction false} NothingYet(k: Key)
    ensures Run([]) == map[] && HitsOf(Run([]), k) == [] && Log([], k) == [] && Recorded([], k) == []
  {
  }

  /** The latest of the cooldowns and windows shorter than the cooldown. */
  function Latest(rules: seq<Rule>, cooldown: real): (t: real)
    requires cooldown > 0.0
    ensures 0.0 <= t < cooldown && AfterShorter(rules, cooldown, t)
    decreases |rules|
  {
    if rules == [] then 0.0
    else
      var rest := Latest(rules[1..], cooldown);
      var one := if rest < rules[0].cooldown < cooldown then rules[0].cooldown else rest;
      var t := if one < rules[0].window < cooldown then rules[0].window else one;
      assert forall i :: 0 < i < |rules| ==> rules[i] == rules[1..][i - 1];
      t
  }

  lemma {:induction false} NegativeDenies(m: Hits, grant: string, rules: seq<Rule>, now: real)
    requires AlwaysDenies(rules)
    ensures CheckRules(m, grant, rules, now).0 != Pass
    decreases |rules|
  {
    var i :| 0 <= i < |rules| && Counts(rules[i]) && rules[i].limit < 0;
    if i > 0 {
      assert rules[1..][i - 1] == rules[i];
      var k := (grant, rules[0].id);
      NegativeDenies(m[k := Checked(HitsOf(m, k), rules[0], now)], grant, rules[1..], now);
    }
  }

  lemma {:induction false} NothingLogged(attempts: seq<Attempt>, grant: string, rules: seq<Rule>, id: string)
    requires Uniform(attempts, grant, rules) && AlwaysDenies(rules)
    ensures Log(attempts, (grant, id)) == []
    decreases |attempts|
  {
    if attempts != [] {
      hide CheckRules, Record, AlwaysDenies;
      var before, a := attempts[..|attempts| - 1], attempts[|attempts| - 1];
      NothingLogged(before, grant, rules, id);
      NegativeDenies(Run(before), grant, rules, a.now);
    }
  }

  /** A list that several rules share keeps a cooldown in every run exactly if, in the order of the rules, one that blocks
      for so long comes before any that prunes to less, or nothing is admitted at all. */
  lemma {:induction false} CooldownKeptExactly(rules: seq<Rule>, id: string, cooldown: real)
    requires rules != [] && AllNamed(rules, id) && cooldown > 0.0
    ensures KeepsCooldown(rules, id, cooldown) <==> Guarded(rules, id, cooldown, |rules|) || AlwaysDenies(rules)
  {
    hide Guarded, AlwaysDenies, Log, Spaced;
    if Guarded(rules, id, cooldown, |rules|) || AlwaysDenies(rules) {
      forall attempts, grant | Uniform(attempts, grant, rules)
        ensures Spaced(Log(attempts, (grant, id)), cooldown)
      {
        if AlwaysDenies(rules) {
          NothingLogged(attempts, grant, rules, id);
          FewAreSpaced(cooldown);
        } else {
          AllOccur(rules, id);
          HitsAreSpaced(attempts, (grant, id), cooldown, |rules|);
        }
      }
    } else {
      var t := Latest(rules, cooldown);
      TwoAdmitted("", rules, id, cooldown, t);
      TooClose(t, cooldown);
    }
  }

  lemma {:induction false} FewAreSpaced(cooldown: real)
    ensures Spaced([], cooldown)
  {
  }

  lemma {:induction false} TooClose(t: real, cooldown: real)
    requires 0.0 <= t < cooldown
    ensures !Spaced([0.0, t], cooldown)
  {
    assert [0.0, t][1] - [0.0, t][0] < cooldown;
  }

  /** Whenever attempts are made under these rules, the shared list is the full record as far back as the window. */
  ghost predicate KeepsRecord(rules: seq<Rule>, id: string, window: real) {
    forall attempts, grant, later :: Uniform(attempts, grant, rules) && By(attempts, later) ==> Agrees(attempts, (grant, id), later, window)
  }

  predicate Agrees(attempts: seq<Attempt>, k: Key, later: real, window: real) {
    Recent(HitsOf(Run(attempts), k), later, window) == Recent(Recorded(attempts, k), later, window)
  }

  predicate Among(some: seq<real>, all: seq<real>) {
    forall x :: x in some ==> x in all
  }

  predicate AllOver(hits: seq<real>, now: real, window: real) {
    forall i :: 0 <= i < |hits| ==> now - hits[i] >= window
  }

  lemma {:induction false} AmongIsOver(some: seq<real>, all: seq<real>, now: real, window: real)
    requires Among(some, all) && AllOver(all, now, window)
    ensures AllOver(some, now, window)
  {
    forall i | 0 <= i < |some|
      ensures now - some[i] >= window
    {
      assert some[i] in some;
    }
  }

  lemma {:induction false} PartIsAmong(some: seq<real>, all: seq<real>)
    requires multiset(some) <= multiset(all)
    ensures Among(some, all)
  {
    forall x | x in some
      ensures x in all
    {
      assert x in multiset(some);
      assert x in multiset(all);
    }
  }

  /** The record ends with the hits of the last admitted attempt; the hits before are of earlier ones. */
  lemma {:induction false} RecordSplits(attempts: seq<Attempt>, grant: string, rules: seq<Rule>, id: string) returns (rest: seq<real>)
    requires Uniform(attempts, grant, rules) && AllNamed(rules, id) && Log(attempts, (grant, id)) != []
    ensures var log := Log(attempts, (grant, id));
      && Recorded(attempts, (grant, id)) == rest + Times(log[|log| - 1], |rules|)
      && Among(rest, log[..|log| - 1])
    decreases |attempts|
  {
    hide Run, Recorded, Log, Times, Outcome, Names, Occurrences;
    var k := (grant, id);
    if attempts == [] {
      NothingYet(k);
    } else {
      var before, a := attempts[..|attempts| - 1], attempts[|attempts| - 1];
      assert before + [a] == attempts;
      OneMoreAttempt(before, a, k);
      AllOccur(rules, id);
      if Admitted(before, a, k) {
        RecordIsOfLog(before, k);
        rest := Recorded(before, k);
        assert Log(attempts, k)[..|Log(before, k)|] == Log(before, k);
      } else {
        rest := RecordSplits(before, grant, rules, id);
      }
    }
  }

  lemma {:induction false} NoneRecent(hits: seq<real>, now: real, window: real)
    requires AllOver(hits, now, window)
    ensures Recent(hits, now, window) == []
    decreases |hits|
  {
    if hits != [] {
      NoneRecent(hits[..|hits| - 1], now, window);
    }
  }

  lemma {:induction false} EarlierAreOver(log: seq<real>, now: real, window: real)
    requires Sorted(log) && Spaced(log, window) && window > 0.0 && log != [] && log[|log| - 1] <= now
    ensures AllOver(log[..|log| - 1], now, window)
  {
    var last := |log| - 1;
    forall i | 0 <= i < last
      ensures now - log[i] >= window
    {
      assert log[i] <= log[last - 1] && log[last] - log[last - 1] >= window;
    }
  }

  lemma {:induction false} Cancel(a: multiset<real>, b: multiset<real>, c: multiset<real>)
    requires a + c <= b + c
    ensures a <= b
  {
    forall x
      ensures a[x] <= b[x]
    {
      assert (a + c)[x] <= (b + c)[x];
    }
  }

  /** What a list with the end of the record has besides is in the record too. */
  lemma {:induction false} RestIsPart(hits: seq<real>, rest: seq<real>, last: real, n: nat) returns (others: seq<real>)
    requires Ends(hits, last, n) && multiset(hits) <= multiset(rest + Times(last, n))
    ensures hits == others + Times(last, n) && Among(others, rest)
  {
    hide Times;
    var copies := Times(last, n);
    others := hits[..|hits| - n];
    assert hits == others + copies;
    assert multiset(hits) == multiset(others) + multiset(copies) && multiset(rest + copies) == multiset(rest) + multiset(copies);
    Cancel(multiset(others), multiset(rest), multiset(copies));
    PartIsAmong(others, rest);
  }

  /** A guarded list holds the hits of the last attempt as long as they are recent, and earlier ones are not. */
  lemma {:induction false} GuardedKeepsRecord(attempts: seq<Attempt>, grant: string, rules: seq<Rule>, id: string, later: real, window: real)
    requires Uniform(attempts, grant, rules) && By(attempts, later) && rules != [] && AllNamed(rules, id) && window > 0.0
    requires Guarded(rules, id, window, |rules|)
    ensures Agrees(attempts, (grant, id), later, window)
  {
    hide Run, Recorded, Log, Recent, Times, Guarded, Sorted, Spaced, Names;
    var k := (grant, id);
    AllOccur(rules, id);
    LogInOrder(attempts, k, later);
    RemembersAlways(attempts, k, later, window, |rules|);
    RecordIsOfLog(attempts, k);
    ListIsPart(attempts, k);
    var hits, log := HitsOf(Run(attempts), k), Log(attempts, k);
    if log != [] {
      var last := log[|log| - 1];
      var rest := RecordSplits(attempts, grant, rules, id);
      EarlierAreOver(log, later, window);
      AmongIsOver(rest, log[..|log| - 1], later, window);
      NoneRecent(rest, later, window);
      RecentAppend(rest, Times(last, |rules|), later, window);
      RecentOfTimes(last, |rules|, later, window);
      if later - last < window {
        var others := RestIsPart(hits, rest, last, |rules|);
        AmongIsOver(others, rest, later, window);
        NoneRecent(others, later, window);
        RecentAppend(others, Times(last, |rules|), later, window);
      } else {
        PartIsAmong(hits, Recorded(attempts, k));
        LastIsOver(log, later, window);
        AmongIsOver(hits, log, later, window);
        NoneRecent(hits, later, window);
      }
    } else {
      assert multiset(hits) <= multiset([]);
    }
  }

  lemma {:induction false} LastIsOver(log: seq<real>, now: real, window: real)
    requires Sorted(log) && log != [] && now - log[|log| - 1] >= window
    ensures AllOver(log, now, window)
  {
  }

  /** A list that several rules share is the full record as far back as a window, in every run, exactly if none of them
      prunes to less, or one that blocks for so long comes before any that does, or nothing is admitted at all. */
  lemma {:induction false} RecordKeptExactly(rules: seq<Rule>, id: string, window: real)
    requires rules != [] && AllNamed(rules, id) && window > 0.0
    ensures KeepsRecord(rules, id, window)
      <==> KeepsAll(rules, id, window) || Guarded(rules, id, window, |rules|) || AlwaysDenies(rules)
  {
    hide Guarded, AlwaysDenies, Agrees, KeepsAll;
    if KeepsAll(rules, id, window) || Guarded(rules, id, window, |rules|) || AlwaysDenies(rules) {
      forall attempts, grant, later | Uniform(attempts, grant, rules) && By(attempts, later)
        ensures Agrees(attempts, (grant, id), later, window)
      {
        if AlwaysDenies(rules) {
          NothingLogged(attempts, grant, rules, id);
          NothingAgrees(attempts, (grant, id), later, window);
        } else if KeepsAll(rules, id, window) {
          ListIsRecordHere(attempts, grant, rules, id, later, window);
        } else {
          GuardedKeepsRecord(attempts, grant, rules, id, later, window);
        }
      }
    } else {
      var t := Latest(rules, window);
      HitsLost("", rules, id, window, t);
    }
  }

  lemma {:induction false} ListIsRecordHere(attempts: seq<Attempt>, grant: string, rules: seq<Rule>, id: string, later: real, window: real)
    requires Uniform(attempts, grant, rules) && By(attempts, later) && KeepsAll(rules, id, window)
    ensures Agrees(attempts, (grant, id), later, window)
  {
    hide KeepsAll;
    ListIsRecord(attempts, (grant, id), window, later);
  }

  lemma {:induction false} NothingAgrees(attempts: seq<Attempt>, k: Key, later: real, window: real)
    requires Log(attempts, k) == []
    ensures Agrees(attempts, k, later, window)
  {
    hide Run, Recorded, Log, Recent;
    RecordIsOfLog(attempts, k);
    ListIsPart(attempts, k);
    assert multiset(HitsOf(Run(attempts), k)) <= multiset([]);
  }

  /** Otherwise the second of two attempts finds the hits of the first gone. */
  lemma {:induction false} HitsLost(grant: string, rules: seq<Rule>, id: string, window: real, t: real)
    requires rules != [] && AllNamed(rules, id) && !AlwaysDenies(rules) && AfterShorter(rules, window, t) && 0.0 <= t < window
    requires !Guarded(rules, id, window, |rules|) && !KeepsAll(rules, id, window)
    ensures var attempts := [Attempt(grant, rules, 0.0), Attempt(grant, rules, t)];
      Uniform(attempts, grant, rules) && By(attempts, t) && !Agrees(attempts, (grant, id), t, window)
  {
    hide CheckRules, Record, Guarded, Log, Run, Recorded, Occurrences, Times, AlwaysDenies, KeepsAll, Recent;
    var k, a, b, n := (grant, id), Attempt(grant, rules, 0.0), Attempt(grant, rules, t), |rules|;
    TwoAdmitted(grant, rules, id, window, t);
    AllOccur(rules, id);
    FirstIsRecorded(grant, rules, id);
    UnguardedPasses(Run([a]), k, rules, window, n, t);
    RecordsPerRule(CheckRules(Run([a]), grant, rules, t).1, grant, rules, t, k);
    assert Names(rules, id) by { assert rules[0].id == id; }
    OneMoreAttempt([a], b, k);
    assert [a] + [b] == [a, b] && [] + Times(t, n) == Times(t, n);
    RecentAppend(Times(0.0, n), Times(t, n), t, window);
    RecentOfTimes(0.0, n, t, window);
    RecentOfTimes(t, n, t, window);
    TimesSize(0.0, n);
    TimesSize(t, n);
  }

  lemma {:induction false} FirstIsRecorded(grant: string, rules: seq<Rule>, id: string)
    requires rules != [] && AllNamed(rules, id) && !AlwaysDenies(rules)
    ensures var first := [Attempt(grant, rules, 0.0)];
      HitsOf(Run(first), (grant, id)) == Recorded(first, (grant, id)) == Times(0.0, |rules|)
  {
    hide CheckRules, Record, Log, Run, Recorded, Occurrences, Times, AlwaysDenies;
    var k, a := (grant, id), Attempt(grant, rules, 0.0);
    assert Names(rules, id) by { assert rules[0].id == id; }
    AllOccur(rules, id);
    NothingYet(k);
    EmptyPasses(Run([]), k, rules, 0.0);
    OneMoreAttempt([], a, k);
    assert [] + [a] == [a] && [] + Times(0.0, |rules|) == Times(0.0, |rules|);
    RecordsPerRule(CheckRules(Run([]), grant, rules, 0.0).1, grant, rules, 0.0, k);
  }

  /** Two limiters under the default id: the first prunes their list to ten seconds, so that the second forgets within its
      minute, be that a cooldown or a window, and lets an operation through after twenty seconds. */
  lemma {:induction false} SharedListForgets()
    ensures var counting := Rule("rate_limit", 0.0, 100, 10.0);
      var cooling := Rule("rate_limit", 60.0, 0, 0.0);
      var rules := [counting, cooling];
      Log([Attempt("g", rules, 0.0), Attempt("g", rules, 20.0)], ("g", "rate_limit")) == [0.0, 20.0]
    ensures var counting := Rule("rate_limit", 0.0, 100, 10.0);
      var once := Rule("rate_limit", 0.0, 1, 60.0);
      var rules := [counting, once];
      var log := Log([Attempt("g", rules, 0.0), Attempt("g", rules, 20.0)], ("g", "rate_limit"));
      log == [0.0, 20.0] && CountIn(log, 20.0, once.window) > once.limit
  {
    var counting := Rule("rate_limit", 0.0, 100, 10.0);
    var cooling, once := Rule("rate_limit", 60.0, 0, 0.0), Rule("rate_limit", 0.0, 1, 60.0);
    TwoAdmitted("g", [counting, cooling], "rate_limit", 60.0, 20.0);
    TwoAdmitted("g", [counting, once], "rate_limit", 60.0, 20.0);
    assert [0.0, 20.0][..1] == [0.0] && [0.0][..0] == [];
  }
}
