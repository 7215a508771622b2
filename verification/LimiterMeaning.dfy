/** When restriction limiters let an operation pass, by their parameters and the times of the hits. */
module LimiterMeaning {
  import opened Policy
  import opened PolicyMeaning
  import opened RestrictionLimits
  import AuthoritySpec

  // ----- Which limiters apply -----

  predicate IsRateType(typ: string) {
    Lower(typ) == "rate_limit" || Lower(typ) == "cooldown"
  }

  /** The limiters in force, in their order, each under its id or "rate_limit". */
  ghost function LimitersInForce(rs: seq<Restriction>, operation: string, c: Context): seq<Rule>
    decreases |rs|
  {
    if rs == [] then []
    else
      var before, r := LimitersInForce(rs[..|rs| - 1], operation, c), rs[|rs| - 1];
      if IsRateType(r.typ) && InForce(r, operation, c)
      then before + [Rule(if r.id != "" then r.id else "rate_limit", r.params.cooldown, r.params.limit, r.params.window)]
      else before
  }

  lemma {:induction false} LimitersConcat(a: seq<Restriction>, b: seq<Restriction>, operation: string, c: Context)
    ensures LimitersInForce(a + b, operation, c) == LimitersInForce(a, operation, c) + LimitersInForce(b, operation, c)
    decreases |b|
  {
    hide InForce, Lower;
    if b == [] {
      assert a + b == a;
    } else {
      LimitersConcat(a, b[..|b| - 1], operation, c);
      assert (a + b)[..|a + b| - 1] == a + b[..|b| - 1];
    }
  }

  lemma {:induction false} LimitersAre(rs: seq<Restriction>, operation: string, c: Context)
    requires operation in {"read", "subscribe", "history", "camera", "action"}
    ensures AuthoritySpec.RulesFor(ActiveLimiters(rs, operation, c)) == LimitersInForce(rs, operation, c)
    decreases |rs|
  {
    hide InForce, Lower, Active, AuthoritySpec.RuleFor;
    if rs != [] {
      var r, rest := rs[0], rs[1..];
      LimitersAre(rest, operation, c);
      ActiveExactly(r, operation, c);
      assert rs == [r] + rest;
      LimitersConcat([r], rest, operation, c);
      OneLimiter(r, operation, c);
    }
  }

  lemma {:induction false} OneLimiter(r: Restriction, operation: string, c: Context)
    ensures LimitersInForce([r], operation, c) == if IsLimiter(r) && InForce(r, operation, c) then [AuthoritySpec.RuleFor(r)] else []
  {
    hide InForce, Lower;
    assert [r][..0] == [];
  }

  // ----- When they let pass -----

  /** The hit is younger than every window under the id that counts. */
  predicate Survives(h: real, rules: seq<Rule>, id: string, now: real) {
    forall j :: 0 <= j < |rules| && rules[j].id == id && rules[j].limit != 0 && rules[j].window != 0.0 ==> now - h < rules[j].window
  }

  function Surviving(hits: seq<real>, rules: seq<Rule>, id: string, now: real): seq<real>
    decreases |hits|
  {
    if hits == [] then []
    else
      var before, last := Surviving(hits[..|hits| - 1], rules, id, now), hits[|hits| - 1];
      if Survives(last, rules, id, now) then before + [last] else before
  }

  /** How many hits lie less than a window back. */
  function CountWithin(hits: seq<real>, now: real, window: real): nat
    decreases |hits|
  {
    if hits == [] then 0
    else CountWithin(hits[..|hits| - 1], now, window) + (if now - hits[|hits| - 1] < window then 1 else 0)
  }

  /** The cooldown since the last hit is over, and the window holds fewer hits than the limit; zero switches either off. */
  predicate MeetsTerms(hits: seq<real>, rule: Rule, now: real) {
    && (rule.cooldown != 0.0 && hits != [] ==> now - hits[|hits| - 1] >= rule.cooldown)
    && (rule.limit != 0 && rule.window != 0.0 ==> CountWithin(hits, now, rule.window) < rule.limit)
  }

  predicate MeetsTermsAt(m: Hits, grant: string, rules: seq<Rule>, i: nat, now: real)
    requires i < |rules|
  {
    var id := rules[i].id;
    MeetsTerms(Surviving(if (grant, id) in m then m[(grant, id)] else [], rules[..i], id, now), rules[i], now)
  }

  /** Each limiter is met by the hits under its id that the windows of those before it have left. */
  predicate AllMeetTerms(m: Hits, grant: string, rules: seq<Rule>, now: real) {
    forall i :: 0 <= i < |rules| ==> MeetsTermsAt(m, grant, rules, i, now)
  }

  lemma {:induction false} RecentCount(hits: seq<real>, now: real, window: real)
    ensures |Recent(hits, now, window)| == CountWithin(hits, now, window)
    decreases |hits|
  {
    if hits != [] {
      RecentCount(hits[..|hits| - 1], now, window);
    }
  }

  lemma {:induction false} CheckIs(hits: seq<real>, rule: Rule, now: real)
    ensures Check(hits, rule, now) == Pass <==> MeetsTerms(hits, rule, now)
  {
    RecentCount(hits, now, rule.window);
  }

  lemma {:induction false} AllSurvive(hits: seq<real>, rules: seq<Rule>, id: string, now: real)
    requires forall j :: 0 <= j < |rules| ==> rules[j].id != id
    ensures Surviving(hits, rules, id, now) == hits
    decreases |hits|
  {
    if hits != [] {
      AllSurvive(hits[..|hits| - 1], rules, id, now);
    }
  }

  lemma {:induction false} SurvivesOneMore(h: real, rules: seq<Rule>, r: Rule, id: string, now: real)
    ensures Survives(h, rules + [r], id, now)
      <==> Survives(h, rules, id, now) && (r.id == id && r.limit != 0 && r.window != 0.0 ==> now - h < r.window)
  {
    assert (rules + [r])[|rules|] == r;
    assert forall j :: 0 <= j < |rules| ==> (rules + [r])[j] == rules[j];
  }

  /** One more window prunes what the others have left. */
  lemma {:induction false} SurvivingOneMore(hits: seq<real>, rules: seq<Rule>, r: Rule, id: string, now: real)
    ensures Surviving(hits, rules + [r], id, now)
      == if r.id == id && r.limit != 0 && r.window != 0.0 then Recent(Surviving(hits, rules, id, now), now, r.window)
         else Surviving(hits, rules, id, now)
    decreases |hits|
  {
    hide Survives;
    if hits != [] {
      var init, last := hits[..|hits| - 1], hits[|hits| - 1];
      SurvivingOneMore(init, rules, r, id, now);
      SurvivesOneMore(last, rules, r, id, now);
      var left := Surviving(init, rules, id, now);
      assert (left + [last])[..|left|] == left;
    }
  }

  lemma {:induction false} PrunedByOneMore(hits: seq<real>, rules: seq<Rule>, r: Rule, id: string, now: real)
    ensures PrunedBy(hits, rules + [r], id, now)
      == var p := PrunedBy(hits, rules, id, now); if r.id == id then Checked(p, r, now) else p
    decreases |rules|
  {
    hide Checked;
    if rules == [] {
      assert [] + [r] == [r] && [r][1..] == [];
    } else {
      PrunedByOneMore(if rules[0].id == id then Checked(hits, rules[0], now) else hits, rules[1..], r, id, now);
      assert (rules + [r])[1..] == rules[1..] + [r];
    }
  }

  /** The first `n` rules pass. */
  predicate FirstPass(m: Hits, grant: string, rules: seq<Rule>, n: nat, now: real)
    requires n <= |rules|
  {
    forall i :: 0 <= i < n ==> PassesAt(m, grant, rules, i, now)
  }

  /** Where the rules pass, they leave a list as their windows do. */
  lemma {:induction false} PrunedIsSurviving(m: Hits, grant: string, rules: seq<Rule>, n: nat, now: real, id: string)
    requires n <= |rules| && FirstPass(m, grant, rules, n, now)
    ensures var hits := HitsOf(m, (grant, id)); PrunedBy(hits, rules[..n], id, now) == Surviving(hits, rules[..n], id, now)
    decreases n
  {
    hide Recent, PrunedBy, Surviving, Check;
    var hits := HitsOf(m, (grant, id));
    if n == 0 {
      PrunedNothing(hits, rules[..n], id, now);
      AllSurvive(hits, rules[..n], id, now);
    } else {
      var before, r := rules[..n - 1], rules[n - 1];
      assert rules[..n] == before + [r];
      assert FirstPass(m, grant, rules, n - 1, now);
      PrunedIsSurviving(m, grant, rules, n - 1, now, id);
      PrunedByOneMore(hits, before, r, id, now);
      SurvivingOneMore(hits, before, r, id, now);
      assert PassesAt(m, grant, rules, n - 1, now);
      if r.id == id {
        PassedIsPruned(PrunedBy(hits, before, id, now), r, now);
      }
    }
  }

  lemma {:induction false} PrunedNothing(hits: seq<real>, rules: seq<Rule>, id: string, now: real)
    requires rules == []
    ensures PrunedBy(hits, rules, id, now) == hits
  {
  }

  lemma {:induction false} PassedIsPruned(hits: seq<real>, r: Rule, now: real)
    requires Check(hits, r, now) == Pass
    ensures Checked(hits, r, now) == if r.limit != 0 && r.window != 0.0 then Recent(hits, now, r.window) else hits
  {
  }

  lemma {:induction false} FirstMeet(m: Hits, grant: string, rules: seq<Rule>, n: nat, now: real)
    requires n <= |rules|
    ensures FirstPass(m, grant, rules, n, now) <==> forall i :: 0 <= i < n ==> MeetsTermsAt(m, grant, rules, i, now)
    decreases n
  {
    hide PrunedBy, Surviving, Check, MeetsTerms;
    if n > 0 {
      FirstMeet(m, grant, rules, n - 1, now);
      var r := rules[n - 1];
      if FirstPass(m, grant, rules, n - 1, now) {
        PrunedIsSurviving(m, grant, rules, n - 1, now, r.id);
        CheckIs(PrunedBy(HitsOf(m, (grant, r.id)), rules[..n - 1], r.id, now), r, now);
        assert PassesAt(m, grant, rules, n - 1, now) <==> MeetsTermsAt(m, grant, rules, n - 1, now);
      } else {
        assert !FirstPass(m, grant, rules, n, now);
      }
    }
  }

  /** The limiters let an operation pass exactly if all their terms are met. */
  lemma {:induction false} PassesByTerms(m: Hits, grant: string, rules: seq<Rule>, now: real)
    ensures CheckAndRecord(m, grant, rules, now).0 == Pass <==> AllMeetTerms(m, grant, rules, now)
    ensures AllPass(m, grant, rules, now) <==> AllMeetTerms(m, grant, rules, now)
  {
    hide PassesAt, MeetsTermsAt, CheckRules, Record;
    PassesExactly(m, grant, rules, now);
    FirstMeet(m, grant, rules, |rules|, now);
  }

  /** How many rules have the id. */
  function HowMany(rules: seq<Rule>, id: string): nat
    decreases |rules|
  {
    if rules == [] then 0 else HowMany(rules[..|rules| - 1], id) + (if rules[|rules| - 1].id == id then 1 else 0)
  }

  lemma {:induction false} OccurrencesOneMore(rules: seq<Rule>, r: Rule, id: string)
    ensures Occurrences(rules + [r], id) == Occurrences(rules, id) + (if r.id == id then 1 else 0)
    decreases |rules|
  {
    if rules == [] {
      assert [] + [r] == [r] && [r][1..] == [];
    } else {
      OccurrencesOneMore(rules[1..], r, id);
      assert (rules + [r])[1..] == rules[1..] + [r];
    }
  }

  lemma {:induction false} OccurrencesAre(rules: seq<Rule>, id: string)
    ensures Occurrences(rules, id) == HowMany(rules, id)
    decreases |rules|
  {
    if rules != [] {
      OccurrencesAre(rules[..|rules| - 1], id);
      OccurrencesOneMore(rules[..|rules| - 1], rules[|rules| - 1], id);
      assert rules == rules[..|rules| - 1] + [rules[|rules| - 1]];
    }
  }

  /** What passes leaves in each list of its grant the hits that all windows under the id leave, and one more for each limiter
      with the id. */
  lemma {:induction false} RecordedByTerms(m: Hits, grant: string, rules: seq<Rule>, now: real, k: Key)
    requires AllMeetTerms(m, grant, rules, now)
    ensures var before, after := HitsOf(m, k), HitsOf(CheckAndRecord(m, grant, rules, now).1, k);
      after == if k.0 == grant then Surviving(before, rules, k.1, now) + seq(HowMany(rules, k.1), _ => now) else before
  {
    hide PassesAt, MeetsTermsAt, CheckRules, Record, PrunedBy, Surviving, CheckAndRecord, Occurrences, HowMany;
    PassesByTerms(m, grant, rules, now);
    DeniedOrRecorded(m, grant, rules, now, k);
    OccurrencesAre(rules, k.1);
    PrunedIsSurviving(m, grant, rules, |rules|, now, k.1);
    assert rules[..|rules|] == rules;
  }
}
