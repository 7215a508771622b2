/** The data-plane limiter: weighted hits in a sliding window, one list per consumer, pruned on every request. */
module SlidingWindow {
  datatype Hit = Hit(at: real, weight: nat)

  datatype Request = Request(consumer: string, now: real, weight: nat)

  type Table = map<string, seq<Hit>>

  /** The hits later than the cutoff, in order. */
  function Prune(hits: seq<Hit>, cutoff: real): (r: seq<Hit>)
    ensures |r| <= |hits|
    decreases |hits|
  {
    if hits == [] then []
    else
      var rest := Prune(hits[..|hits| - 1], cutoff);
      var last := hits[|hits| - 1];
      if last.at > cutoff then rest + [last] else rest
  }

  function Weight(hits: seq<Hit>): nat
    decreases |hits|
  {
    if hits == [] then 0 else Weight(hits[..|hits| - 1]) + hits[|hits| - 1].weight
  }

  function HitsOf(table: Table, consumer: string): seq<Hit> {
    if consumer in table then table[consumer] else []
  }

  /** Whether a request passes, and the table after it. */
  function Admit(table: Table, r: Request, limit: nat, window: real): (bool, Table) {
    var hits := Prune(HitsOf(table, r.consumer), r.now - window);
    if Weight(hits) + r.weight > limit then (false, table[r.consumer := hits])
    else (true, table[r.consumer := hits + [Hit(r.now, r.weight)]])
  }

  function Run(requests: seq<Request>, limit: nat, window: real): Table
    decreases |requests|
  {
    if requests == [] then map[]
    else Admit(Run(requests[..|requests| - 1], limit, window), requests[|requests| - 1], limit, window).1
  }

  /** Every hit the limiter ever admitted for a consumer, nothing pruned. */
  function History(requests: seq<Request>, consumer: string, limit: nat, window: real): seq<Hit>
    decreases |requests|
  {
    if requests == [] then []
    else
      var before, r := requests[..|requests| - 1], requests[|requests| - 1];
      var h := History(before, consumer, limit, window);
      if r.consumer == consumer && Admit(Run(before, limit, window), r, limit, window).0
      then h + [Hit(r.now, r.weight)] else h
  }

  /** The weight of the hits in the span `(t - window, t]`. */
  function WeightIn(hits: seq<Hit>, t: real, window: real): nat
    decreases |hits|
  {
    if hits == [] then 0
    else
      var last := hits[|hits| - 1];
      WeightIn(hits[..|hits| - 1], t, window) + (if t - window < last.at <= t then last.weight else 0)
  }

  predicate ClockMovesForward(requests: seq<Request>) {
    forall i, j :: 0 <= i <= j < |requests| ==> requests[i].now <= requests[j].now
  }

  /** The cutoff of the consumer's last request; any cutoff will do before its first one. */
  function LastCutoff(requests: seq<Request>, consumer: string, window: real): real
    decreases |requests|
  {
    if requests == [] then 0.0
    else if requests[|requests| - 1].consumer == consumer then requests[|requests| - 1].now - window
    else LastCutoff(requests[..|requests| - 1], consumer, window)
  }

  lemma {:induction false} PruneAppend(hits: seq<Hit>, h: Hit, cutoff: real)
    ensures Prune(hits + [h], cutoff) == if h.at > cutoff then Prune(hits, cutoff) + [h] else Prune(hits, cutoff)
  {
    assert (hits + [h])[..|hits|] == hits;
  }

  lemma {:induction false} PruneTwice(hits: seq<Hit>, c: real, d: real)
    requires c <= d
    ensures Prune(Prune(hits, c), d) == Prune(hits, d)
    decreases |hits|
  {
    if hits != [] {
      var init, last := hits[..|hits| - 1], hits[|hits| - 1];
      PruneTwice(init, c, d);
      if last.at > c {
        PruneAppend(Prune(init, c), last, d);
      }
    }
  }

  /** Hits that are not in the future and pass the cutoff are those in the span. */
  lemma {:induction false} PrunedWeight(hits: seq<Hit>, t: real, window: real)
    requires forall i :: 0 <= i < |hits| ==> hits[i].at <= t
    ensures Weight(Prune(hits, t - window)) == WeightIn(hits, t, window)
    decreases |hits|
  {
    if hits != [] {
      var init, last := hits[..|hits| - 1], hits[|hits| - 1];
      PrunedWeight(init, t, window);
      var p := Prune(init, t - window);
      assert (p + [last])[..|p|] == p;
    }
  }

  /** A later span of hits that are all in the past weighs no more. */
  lemma {:induction false} LaterSpan(hits: seq<Hit>, s: real, t: real, window: real)
    requires s <= t && forall i :: 0 <= i < |hits| ==> hits[i].at <= s
    ensures WeightIn(hits, t, window) <= WeightIn(hits, s, window)
    decreases |hits|
  {
    if hits != [] {
      LaterSpan(hits[..|hits| - 1], s, t, window);
    }
  }

  lemma {:induction false} HistoryIsPast(requests: seq<Request>, consumer: string, limit: nat, window: real)
    requires ClockMovesForward(requests)
    ensures requests == [] ==> History(requests, consumer, limit, window) == []
    ensures forall h :: h in History(requests, consumer, limit, window) ==> h.at <= requests[|requests| - 1].now
    decreases |requests|
  {
    if requests != [] {
      var before, r := requests[..|requests| - 1], requests[|requests| - 1];
      HistoryIsPast(before, consumer, limit, window);
      forall h | h in History(before, consumer, limit, window)
        ensures h.at <= r.now
      {
        assert before[|before| - 1] == requests[|requests| - 2];
      }
    }
  }

  lemma {:induction false} ForwardPrefix(before: seq<Request>, r: Request)
    requires ClockMovesForward(before + [r])
    ensures ClockMovesForward(before) && (before != [] ==> before[|before| - 1].now <= r.now)
  {
    forall i, j | 0 <= i <= j < |before|
      ensures before[i].now <= before[j].now
    {
      assert (before + [r])[i].now <= (before + [r])[j].now;
    }
    if before != [] {
      assert (before + [r])[|before| - 1].now <= (before + [r])[|before|].now;
    }
  }

  lemma {:induction false} OneMoreRequest(before: seq<Request>, r: Request, consumer: string, limit: nat, window: real)
    ensures Run(before + [r], limit, window) == Admit(Run(before, limit, window), r, limit, window).1
    ensures var h := History(before, consumer, limit, window);
      History(before + [r], consumer, limit, window)
        == if r.consumer == consumer && Admit(Run(before, limit, window), r, limit, window).0 then h + [Hit(r.now, r.weight)] else h
    ensures LastCutoff(before + [r], consumer, window)
      == if r.consumer == consumer then r.now - window else LastCutoff(before, consumer, window)
  {
    hide Admit;
    assert (before + [r])[..|before|] == before;
  }

  /** The table holds what is left of the history after the consumer's last cutoff. */
  ghost predicate TableMatches(requests: seq<Request>, consumer: string, limit: nat, window: real) {
    && HitsOf(Run(requests, limit, window), consumer)
         == Prune(History(requests, consumer, limit, window), LastCutoff(requests, consumer, window))
    && (History(requests, consumer, limit, window) == []
        || (requests != [] && LastCutoff(requests, consumer, window) <= requests[|requests| - 1].now - window))
  }

  lemma {:induction false} TableStillMatches(before: seq<Request>, r: Request, consumer: string, limit: nat, window: real)
    requires ClockMovesForward(before + [r]) && window > 0.0 && TableMatches(before, consumer, limit, window)
    ensures TableMatches(before + [r], consumer, limit, window)
  {
    hide Prune, Weight, ClockMovesForward, Run, History, LastCutoff;
    assert (before + [r])[|before + [r]| - 1] == r;
    ForwardPrefix(before, r);
    OneMoreRequest(before, r, consumer, limit, window);
    if r.consumer == consumer {
      var h := History(before, consumer, limit, window);
      PruneBeforeRequest(before, r, limit, window);
      PruneAppend(h, Hit(r.now, r.weight), r.now - window);
    }
  }

  lemma {:induction false} TableIsPrunedHistory(requests: seq<Request>, consumer: string, limit: nat, window: real)
    requires ClockMovesForward(requests) && window > 0.0
    ensures TableMatches(requests, consumer, limit, window)
    decreases |requests|
  {
    if requests != [] {
      hide TableMatches, ClockMovesForward;
      var before, r := requests[..|requests| - 1], requests[|requests| - 1];
      assert before + [r] == requests;
      ForwardPrefix(before, r);
      TableIsPrunedHistory(before, consumer, limit, window);
      TableStillMatches(before, r, consumer, limit, window);
    }
  }

  lemma {:induction false} PruneBeforeRequest(before: seq<Request>, r: Request, limit: nat, window: real)
    requires ClockMovesForward(before + [r])
    requires TableMatches(before, r.consumer, limit, window)
    ensures Prune(HitsOf(Run(before, limit, window), r.consumer), r.now - window)
         == Prune(History(before, r.consumer, limit, window), r.now - window)
  {
    var h := History(before, r.consumer, limit, window);
    if h != [] {
      ForwardPrefix(before, r);
      PruneTwice(h, LastCutoff(before, r.consumer, window), r.now - window);
    }
  }

  /** A request is refused exactly when the full history says that admitting it would exceed the limit. */
  lemma {:induction false} RefusedExactlyAboveLimit(before: seq<Request>, r: Request, limit: nat, window: real)
    requires ClockMovesForward(before + [r]) && window > 0.0
    ensures Admit(Run(before, limit, window), r, limit, window).0
      <==> WeightIn(History(before, r.consumer, limit, window), r.now, window) + r.weight <= limit
  {
    var h := History(before, r.consumer, limit, window);
    hide Prune, Weight, WeightIn, History, Run, LastCutoff, ClockMovesForward;
    ForwardPrefix(before, r);
    TableIsPrunedHistory(before, r.consumer, limit, window);
    PruneBeforeRequest(before, r, limit, window);
    HistoryIsPast(before, r.consumer, limit, window);
    PrunedWeight(h, r.now, window);
  }

  lemma {:induction false} WeightInAppend(hits: seq<Hit>, h: Hit, t: real, window: real)
    ensures WeightIn(hits + [h], t, window) == WeightIn(hits, t, window) + (if t - window < h.at <= t then h.weight else 0)
  {
    assert (hits + [h])[..|hits|] == hits;
  }

  /** At every instant, the weight admitted for a consumer in the window that ends there is within the limit. */
  lemma {:induction false} NeverAboveLimit(requests: seq<Request>, consumer: string, limit: nat, window: real, t: real)
    requires ClockMovesForward(requests) && window > 0.0
    ensures WeightIn(History(requests, consumer, limit, window), t, window) <= limit
    decreases |requests|
  {
    if requests != [] {
      var before, r := requests[..|requests| - 1], requests[|requests| - 1];
      var h := History(before, consumer, limit, window);
      assert before + [r] == requests;
      NeverAboveLimit(before, consumer, limit, window, t);
      if History(requests, consumer, limit, window) != h {
        RefusedExactlyAboveLimit(before, r, limit, window);
        WeightInAppend(h, Hit(r.now, r.weight), t, window);
        HistoryIsPast(before, consumer, limit, window);
        if t >= r.now {
          LaterSpan(h, r.now, t, window);
        }
      }
    }
  }
}

/** The restriction limiters: cooldowns and counts per window, one list of hit times per grant and restriction id. */
module RestrictionLimits {
  /** The parameters of a `rate_limit` or `cooldown` restriction; zero switches a check off. */
  datatype Rule = Rule(id: string, cooldown: real, limit: int, window: real)

  datatype Reason = CooldownActive | RateLimited

  datatype Verdict = Pass | Deny(id: string, reason: Reason)

  type Key = (string, string)

  type Hits = map<Key, seq<real>>

  datatype Attempt = Attempt(grant: string, rules: seq<Rule>, now: real)

  function HitsOf(m: Hits, k: Key): seq<real> {
    if k in m then m[k] else []
  }

  /** The hits less than a window old, in order. */
  function Recent(hits: seq<real>, now: real, window: real): (r: seq<real>)
    ensures |r| <= |hits|
    decreases |hits|
  {
    if hits == [] then []
    else
      var rest := Recent(hits[..|hits| - 1], now, window);
      var last := hits[|hits| - 1];
      if now - last < window then rest + [last] else rest
  }

  predicate Cooling(hits: seq<real>, rule: Rule, now: real) {
    rule.cooldown != 0.0 && hits != [] && now - hits[|hits| - 1] < rule.cooldown
  }

  predicate Counts(rule: Rule) {
    rule.limit != 0 && rule.window != 0.0
  }

  predicate Full(hits: seq<real>, rule: Rule, now: real) {
    Counts(rule) && |Recent(hits, now, rule.window)| >= rule.limit
  }

  /** The list of a rule after it has been checked: pruned, unless the cooldown ended the check. */
  function Checked(hits: seq<real>, rule: Rule, now: real): seq<real> {
    if !Cooling(hits, rule, now) && Counts(rule) then Recent(hits, now, rule.window) else hits
  }

  function Check(hits: seq<real>, rule: Rule, now: real): Verdict {
    if Cooling(hits, rule, now) then Deny(rule.id, CooldownActive)
    else if Full(hits, rule, now) then Deny(rule.id, RateLimited)
    else Pass
  }

  /** The rules in order, up to the first that denies. */
  function CheckRules(m: Hits, grant: string, rules: seq<Rule>, now: real): (Verdict, Hits)
    decreases |rules|
  {
    if rules == [] then (Pass, m)
    else
      var k := (grant, rules[0].id);
      var hits := HitsOf(m, k);
      var m1 := m[k := Checked(hits, rules[0], now)];
      if Check(hits, rules[0], now) != Pass then (Check(hits, rules[0], now), m1)
      else CheckRules(m1, grant, rules[1..], now)
  }

  /** One more hit for every rule. */
  function Record(m: Hits, grant: string, rules: seq<Rule>, now: real): Hits
    decreases |rules|
  {
    if rules == [] then m
    else
      var k := (grant, rules[0].id);
      Record(m[k := HitsOf(m, k) + [now]], grant, rules[1..], now)
  }

  function CheckAndRecord(m: Hits, grant: string, rules: seq<Rule>, now: real): (Verdict, Hits) {
    var (v, m1) := CheckRules(m, grant, rules, now);
    if v != Pass then (v, m1) else (v, Record(m1, grant, rules, now))
  }

  // ----- One call -----

  predicate Names(rules: seq<Rule>, id: string) {
    exists i :: 0 <= i < |rules| && rules[i].id == id
  }

  function RuleOf(rules: seq<Rule>, id: string): Rule
    requires Names(rules, id)
    decreases |rules|
  {
    if rules[0].id == id then rules[0]
    else
      assert Names(rules[1..], id) by {
        var i :| 0 <= i < |rules| && rules[i].id == id;
        assert rules[1..][i - 1].id == id;
      }
      RuleOf(rules[1..], id)
  }

  /** How many of the rules share an id. */
  function Occurrences(rules: seq<Rule>, id: string): nat
    decreases |rules|
  {
    if rules == [] then 0 else (if rules[0].id == id then 1 else 0) + Occurrences(rules[1..], id)
  }

  /** A list after the checks of all rules with its id. */
  function PrunedBy(hits: seq<real>, rules: seq<Rule>, id: string, now: real): seq<real>
    decreases |rules|
  {
    if rules == [] then hits
    else PrunedBy(if rules[0].id == id then Checked(hits, rules[0], now) else hits, rules[1..], id, now)
  }

  function Times(now: real, n: nat): seq<real> {
    seq(n, _ => now)
  }

  lemma {:induction false} NamesHeadOrTail(rules: seq<Rule>, id: string)
    requires rules != []
    ensures Names(rules, id) <==> rules[0].id == id || Names(rules[1..], id)
  {
    if Names(rules, id) && rules[0].id != id {
      var i :| 0 <= i < |rules| && rules[i].id == id;
      assert rules[1..][i - 1].id == id;
    }
    if Names(rules[1..], id) {
      var i :| 0 <= i < |rules[1..]| && rules[1..][i].id == id;
      assert rules[i + 1].id == id;
    }
  }

  lemma {:induction false} NamedOccurs(rules: seq<Rule>, id: string)
    ensures Names(rules, id) <==> Occurrences(rules, id) > 0
    decreases |rules|
  {
    if rules != [] {
      hide Names;
      NamesHeadOrTail(rules, id);
      NamedOccurs(rules[1..], id);
    }
  }

  /** The first rule with an id. */
  lemma {:induction false} FirstNamed(rules: seq<Rule>, id: string) returns (i: nat)
    requires Names(rules, id)
    ensures i < |rules| && rules[i] == RuleOf(rules, id) && rules[i].id == id
    ensures forall j :: 0 <= j < i ==> rules[j].id != id
    decreases |rules|
  {
    if rules[0].id == id {
      i := 0;
    } else {
      NamesHeadOrTail(rules, id);
      var j := FirstNamed(rules[1..], id);
      i := j + 1;
    }
  }

  lemma {:induction false} PrunedByNone(hits: seq<real>, rules: seq<Rule>, id: string, now: real)
    requires forall j :: 0 <= j < |rules| ==> rules[j].id != id
    ensures PrunedBy(hits, rules, id, now) == hits
    decreases |rules|
  {
    if rules != [] {
      PrunedByNone(hits, rules[1..], id, now);
    }
  }

  lemma {:induction false} PrunedByOne(hits: seq<real>, rules: seq<Rule>, id: string, now: real, n: nat)
    requires Occurrences(rules, id) <= 1 && n <= |rules|
    ensures var p := PrunedBy(hits, rules[..n], id, now);
      if Names(rules, id) then
        (p == hits && n < |rules|) || p == Checked(hits, RuleOf(rules, id), now)
      else p == hits
    decreases |rules|
  {
    if rules != [] {
      NamesHeadOrTail(rules, id);
      if n > 0 {
        assert rules[..n][1..] == rules[1..][..n - 1];
        if rules[0].id == id {
          NamedOccurs(rules[1..], id);
          PrunedByNone(Checked(hits, rules[0], now), rules[1..][..n - 1], id, now);
        } else {
          PrunedByOne(hits, rules[1..], id, now, n - 1);
        }
      }
    }
  }

  lemma {:induction false} PrunedNext(m: Hits, grant: string, rules: seq<Rule>, now: real, id: string, n: nat)
    requires n < |rules|
    ensures var k0 := (grant, rules[0].id);
      PrunedBy(HitsOf(m, (grant, id)), rules[..n + 1], id, now)
        == PrunedBy(HitsOf(m[k0 := Checked(HitsOf(m, k0), rules[0], now)], (grant, id)), rules[1..][..n], id, now)
  {
    hide Checked;
    assert rules[..n + 1][1..] == rules[1..][..n];
  }

  /** The checks change a list only by pruning it, one rule with its id after the other; if all pass, all have pruned it. */
  lemma {:induction false} ChecksPrune(m: Hits, grant: string, rules: seq<Rule>, now: real, k: Key) returns (n: nat)
    ensures n <= |rules| && (CheckRules(m, grant, rules, now).0 == Pass ==> n == |rules|)
    ensures HitsOf(CheckRules(m, grant, rules, now).1, k)
      == if k.0 == grant then PrunedBy(HitsOf(m, k), rules[..n], k.1, now) else HitsOf(m, k)
    decreases |rules|
  {
    hide Checked, Check;
    if rules == [] {
      n := 0;
    } else {
      var k0 := (grant, rules[0].id);
      var m1 := m[k0 := Checked(HitsOf(m, k0), rules[0], now)];
      if Check(HitsOf(m, k0), rules[0], now) != Pass {
        n := 1;
        PrunedNext(m, grant, rules, now, k.1, 0);
      } else {
        var rest := ChecksPrune(m1, grant, rules[1..], now, k);
        n := rest + 1;
        PrunedNext(m, grant, rules, now, k.1, rest);
      }
    }
  }

  /** A rule passes on its list as the rules before it with the same id left it: on the list itself, if it is the first
      with its id. */
  predicate PassesAt(m: Hits, grant: string, rules: seq<Rule>, i: nat, now: real)
    requires i < |rules|
  {
    Check(PrunedBy(HitsOf(m, (grant, rules[i].id)), rules[..i], rules[i].id, now), rules[i], now) == Pass
  }

  predicate AllPass(m: Hits, grant: string, rules: seq<Rule>, now: real) {
    forall i :: 0 <= i < |rules| ==> PassesAt(m, grant, rules, i, now)
  }

  /** The checks pass exactly if each rule does. */
  lemma {:induction false} PassesExactly(m: Hits, grant: string, rules: seq<Rule>, now: real)
    ensures CheckRules(m, grant, rules, now).0 == Pass <==> AllPass(m, grant, rules, now)
    decreases |rules|
  {
    hide Checked, Check;
    if rules != [] {
      var k0 := (grant, rules[0].id);
      var m1, rest := m[k0 := Checked(HitsOf(m, k0), rules[0], now)], rules[1..];
      PassesExactly(m1, grant, rest, now);
      assert PrunedBy(HitsOf(m, k0), rules[..0], rules[0].id, now) == HitsOf(m, k0);
      assert PassesAt(m, grant, rules, 0, now) <==> Check(HitsOf(m, k0), rules[0], now) == Pass;
      forall i | 0 <= i < |rest|
        ensures PassesAt(m, grant, rules, i + 1, now) <==> PassesAt(m1, grant, rest, i, now)
      {
        PrunedNext(m, grant, rules, now, rest[i].id, i);
      }
      hide PassesAt;
      assert forall i :: 0 < i < |rules| ==> (PassesAt(m, grant, rules, i, now) <==> PassesAt(m1, grant, rest, i - 1, now));
    }
  }

  /** Recording adds one hit per rule with the list's id: exactly one means a unique id. */
  lemma {:induction false} RecordsPerRule(m: Hits, grant: string, rules: seq<Rule>, now: real, k: Key)
    ensures HitsOf(Record(m, grant, rules, now), k)
      == HitsOf(m, k) + Times(now, if k.0 == grant then Occurrences(rules, k.1) else 0)
    decreases |rules|
  {
    if rules != [] {
      var k0 := (grant, rules[0].id);
      RecordsPerRule(m[k0 := HitsOf(m, k0) + [now]], grant, rules[1..], now, k);
    }
  }

  lemma {:induction false} RecentIsPart(hits: seq<real>, now: real, window: real)
    ensures multiset(Recent(hits, now, window)) <= multiset(hits)
    decreases |hits|
  {
    if hits != [] {
      RecentIsPart(hits[..|hits| - 1], now, window);
      assert hits == hits[..|hits| - 1] + [hits[|hits| - 1]];
    }
  }

  lemma {:induction false} PrunedIsPart(hits: seq<real>, rules: seq<Rule>, id: string, now: real)
    ensures multiset(PrunedBy(hits, rules, id, now)) <= multiset(hits)
    decreases |rules|
  {
    if rules != [] {
      RecentIsPart(hits, now, rules[0].window);
      PrunedIsPart(if rules[0].id == id then Checked(hits, rules[0], now) else hits, rules[1..], id, now);
    }
  }

  /** Whatever the ids, an attempt that is denied adds no hit to any list; one that is admitted leaves every list of its grant
      pruned by the rules with its id, and adds one hit for each of them. */
  lemma {:induction false} DeniedOrRecorded(m: Hits, grant: string, rules: seq<Rule>, now: real, k: Key)
    ensures var (v, m1) := CheckAndRecord(m, grant, rules, now);
      var before, after := HitsOf(m, k), HitsOf(m1, k);
      && (v != Pass ==> multiset(after) <= multiset(before))
      && (v == Pass && k.0 == grant ==> after == PrunedBy(before, rules, k.1, now) + Times(now, Occurrences(rules, k.1)))
      && (k.0 != grant || Occurrences(rules, k.1) == 0 ==> after == before)
  {
    hide CheckRules, Record, PrunedBy, Occurrences;
    var (v, m1) := CheckRules(m, grant, rules, now);
    var n := ChecksPrune(m, grant, rules, now, k);
    assert rules[..|rules|] == rules;
    PrunedIsPart(HitsOf(m, k), rules[..n], k.1, now);
    RecordsPerRule(m1, grant, rules, now, k);
    if Occurrences(rules, k.1) == 0 {
      NamedOccurs(rules, k.1);
      PrunedByNone(HitsOf(m, k), rules[..n], k.1, now);
    }
  }

  /** A list that belongs to one rule of the attempt at most: a denial at most prunes it, an admission prunes it and adds
      exactly one hit, having checked the rule on it. */
  lemma {:induction false} AllOrNothing(m: Hits, grant: string, rules: seq<Rule>, now: real, k: Key)
    requires Occurrences(rules, k.1) <= 1
    ensures var (v, m1) := CheckAndRecord(m, grant, rules, now);
      var before, after := HitsOf(m, k), HitsOf(m1, k);
      if k.0 == grant && Names(rules, k.1)
      then
        var checked := Checked(before, RuleOf(rules, k.1), now);
        if v == Pass then after == checked + [now] && Check(before, RuleOf(rules, k.1), now) == Pass
        else after == before || after == checked
      else after == before
  {
    hide CheckRules, Record, Checked, Check, Names, PrunedBy, Occurrences, RuleOf;
    var (v, m1) := CheckRules(m, grant, rules, now);
    NamedOccurs(rules, k.1);
    DeniedOrRecorded(m, grant, rules, now, k);
    if k.0 == grant && Names(rules, k.1) {
      var n := ChecksPrune(m, grant, rules, now, k);
      PrunedByOne(HitsOf(m, k), rules, k.1, now, n);
      RecordsPerRule(m1, grant, rules, now, k);
      if v == Pass {
        FirstPasses(m, grant, rules, now, k.1);
      }
    }
  }

  /** If the checks pass, the first rule with an id has been checked on the list itself. */
  lemma {:induction false} FirstPasses(m: Hits, grant: string, rules: seq<Rule>, now: real, id: string)
    requires CheckRules(m, grant, rules, now).0 == Pass && Names(rules, id)
    ensures Check(HitsOf(m, (grant, id)), RuleOf(rules, id), now) == Pass
  {
    hide CheckRules, Check, RuleOf, PrunedBy, Names;
    var i := FirstNamed(rules, id);
    PassesExactly(m, grant, rules, now);
    assert PassesAt(m, grant, rules, i, now);
    PrunedByNone(HitsOf(m, (grant, id)), rules[..i], id, now);
  }

  /** With two rules under one id, one admission records two hits in their shared list. */
  lemma {:induction false} SharedIdRecordsTwice()
    ensures var rule := Rule("limit", 10.0, 0, 0.0);
      CheckAndRecord(map[], "grant", [rule, rule], 0.0) == (Pass, map[("grant", "limit") := [0.0, 0.0]])
  {
    var rule := Rule("limit", 10.0, 0, 0.0);
    var k := ("grant", "limit");
    var m: Hits := map[];
    var m1: Hits := map[k := []];
    assert [rule, rule][1..] == [rule] && [rule][1..] == [];
    assert HitsOf(m, k) == [] && HitsOf(m1, k) == [] && m[k := []] == m1 && m1[k := []] == m1;
    assert Check([], rule, 0.0) == Pass && Checked([], rule, 0.0) == [];
    assert CheckRules(m1, "grant", [], 0.0) == (Pass, m1);
    assert CheckRules(m1, "grant", [rule], 0.0) == (Pass, m1);
    assert CheckRules(m, "grant", [rule, rule], 0.0) == (Pass, m1);
    var m2: Hits := map[k := [0.0]];
    var m3: Hits := map[k := [0.0, 0.0]];
    assert [] + [0.0] == [0.0] && [0.0] + [0.0] == [0.0, 0.0];
    assert m1[k := [0.0]] == m2 && m2[k := [0.0, 0.0]] == m3;
    assert Record(m2, "grant", [rule], 0.0) == Record(m3, "grant", [], 0.0) == m3;
    assert Record(m1, "grant", [rule, rule], 0.0) == Record(m2, "grant", [rule], 0.0);
  }
}
