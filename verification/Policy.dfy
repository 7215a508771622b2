/** Scopes and restrictions: what a grant allows. */
module Policy {
  import opened Lists
  import opened Options

  // ----- Manifests -----

  /** A manifest value is a list of strings or something else, which counts as no list. */
  datatype Value = Listed(items: seq<string>) | Unlisted(text: string)

  type Manifest = map<string, Value>

  datatype Scope = Reads | Subscriptions | History | Cameras | Actions

  const SCOPES: seq<Scope> := [Reads, Subscriptions, History, Cameras, Actions]

  /** The canonical key of a scope. */
  function KeyOf(s: Scope): string {
    match s
    case Reads => "read_entities"
    case Subscriptions => "subscriptions"
    case History => "history"
    case Cameras => "camera_snapshots"
    case Actions => "actions"
  }

  /** The camelCase spelling; the canonical key again where there is none. */
  function AliasOf(s: Scope): string {
    match s
    case Reads => "readEntities"
    case Cameras => "cameraSnapshots"
    case _ => KeyOf(s)
  }

  function ListOf(m: Manifest, key: string): seq<string> {
    if key in m && m[key].Listed? then m[key].items else []
  }

  /** The values a manifest gives to a scope under its canonical key. */
  function ScopeSet(m: Manifest, s: Scope): set<string> {
    Elements(ListOf(m, KeyOf(s)))
  }

  /** ... and under either spelling. */
  function EitherSpelling(m: Manifest, s: Scope): set<string> {
    ScopeSet(m, s) + Elements(ListOf(m, AliasOf(s)))
  }

  function ReadEntities(m: Manifest): set<string> { ScopeSet(m, Reads) }

  /** What may be read may be subscribed to. */
  function SubscriptionEntities(m: Manifest): set<string> { ScopeSet(m, Subscriptions) + ReadEntities(m) }

  function HistoryEntities(m: Manifest): set<string> { ScopeSet(m, History) }

  function CameraEntities(m: Manifest): set<string> { ScopeSet(m, Cameras) }

  function ActionScopes(m: Manifest): set<string> { ScopeSet(m, Actions) }

  // ----- Trimming -----

  /** The list without repeats, first occurrences kept. */
  function Dedup(items: seq<string>): (r: seq<string>)
    decreases |items|
  {
    if items == [] then []
    else
      var r := Dedup(items[..|items| - 1]);
      if items[|items| - 1] in r then r else r + [items[|items| - 1]]
  }

  function Keep(items: seq<string>, wanted: set<string>): seq<string>
    decreases |items|
  {
    if items == [] then []
    else
      var r := Keep(items[..|items| - 1], wanted);
      if items[|items| - 1] in wanted then r + [items[|items| - 1]] else r
  }

  function Requested(m: Manifest, s: Scope): seq<string> {
    Dedup(ListOf(m, KeyOf(s)) + (if AliasOf(s) == KeyOf(s) then [] else ListOf(m, AliasOf(s))))
  }

  /** One scope replaced by the intersection, under its canonical key only. */
  function TrimScope(trimmed: Manifest, requested: Manifest, approved: Manifest, s: Scope): Manifest {
    (trimmed - {KeyOf(s), AliasOf(s)})[KeyOf(s) := Listed(Keep(Requested(requested, s), EitherSpelling(approved, s)))]
  }

  function TrimScopes(trimmed: Manifest, requested: Manifest, approved: Manifest, scopes: seq<Scope>): Manifest
    decreases |scopes|
  {
    if scopes == [] then trimmed
    else
      TrimScope(TrimScopes(trimmed, requested, approved, scopes[..|scopes| - 1]), requested, approved, scopes[|scopes| - 1])
  }

  function Trim(requested: Manifest, approved: Manifest): Manifest {
    TrimScopes(requested, requested, approved, SCOPES)
  }

  // ----- What a scope covers -----

  /** The part of an entity id before its first dot; empty without a dot. */
  function DomainOf(entity: string): string {
    if '.' in entity then BeforeDot(entity) else ""
  }

  function BeforeDot(entity: string): string
    decreases |entity|
  {
    if entity == "" || entity[0] == '.' then "" else [entity[0]] + BeforeDot(entity[1..])
  }

  predicate EntityAllowed(entity: string, allowed: set<string>) {
    entity in allowed || "*" in allowed || DomainOf(entity) + ".*" in allowed
  }

  /** The scopes that would allow a service call on an entity; an empty entity is no entity. */
  function ActionCandidates(domain: string, service: string, entity: string): set<string> {
    if entity == "" then {domain + ".*"}
    else
      {domain + "." + service + "@" + entity, domain + ".*@" + entity, "*@" + entity}
      + (if DomainOf(entity) == domain then {domain + ".*"} else {})
  }

  predicate ActionAllowed(m: Manifest, domain: string, service: string, entity: string) {
    ActionCandidates(domain, service, entity) * ActionScopes(m) != {}
  }

  // ----- Restrictions -----

  datatype AppliesTo =
    | Single(selector: string)
    | Selectors(selectors: seq<string>)
    | Structured(operation: string, actions: seq<string>, entities: seq<string>)

  /** The parameters that the types of restriction use. */
  datatype Params = Params(
    expiresAt: Option<int>,
    days: Option<set<nat>>, start: Option<nat>, end: Option<nat>,
    pinHash: Option<string>,
    cooldown: real, limit: int, window: real,
    template: string)

  datatype Restriction = Restriction(enabled: bool, typ: string, id: string, appliesTo: AppliesTo, params: Params)

  /** A point in time: the instant, its weekday and its time of day. */
  datatype Now = Now(instant: int, weekday: nat, timeOfDay: nat)

  datatype Context = Context(domain: string, service: string, entityIds: seq<string>, pin: Option<string>, pins: map<string, string>)

  /** What a rendered template amounts to. */
  datatype Rendered = Truthy | Falsy | Raised

  function LowerChar(c: char): char {
    if 'A' <= c <= 'Z' then c - 'A' + 'a' else c
  }

  function Lower(s: string): (r: string)
    ensures |r| == |s|
  {
    if s == "" then "" else [LowerChar(s[0])] + Lower(s[1..])
  }

  predicate IsBlank(c: char) { c == ' ' || c == '\t' || c == '\n' || c == '\r' }

  function Strip(s: string): string
    decreases |s|
  {
    if s != "" && IsBlank(s[0]) then Strip(s[1..])
    else if s != "" && IsBlank(s[|s| - 1]) then Strip(s[..|s| - 1])
    else s
  }

  function ContextCandidates(c: Context, entities: seq<string>): set<string>
    decreases |entities|
  {
    if entities == [] then {}
    else ActionCandidates(c.domain, c.service, entities[0]) + ContextCandidates(c, entities[1..])
  }

  predicate SelectorMatches(raw: string, operation: string, c: Context) {
    var selector := Strip(raw);
    var name := Lower(selector);
    if name in {"grant", "*"} then true
    else if name in {"read", "reads", "get_states"} then operation == "read"
    else if name in {"subscribe", "subscription", "subscriptions", "subscribe_states"} then operation == "subscribe"
    else if name in {"history", "history_query"} then operation == "history"
    else if name in {"camera", "camera_snapshot", "camera_snapshots"} then operation == "camera"
    else if name in {"action", "actions", "write", "writes", "call_service"} then operation == "action"
    else operation == "action" && selector in ContextCandidates(c, if c.entityIds == [] then [""] else c.entityIds)
  }

  predicate AnySelector(selectors: seq<string>, operation: string, c: Context) {
    exists i :: 0 <= i < |selectors| && SelectorMatches(selectors[i], operation, c)
  }

  predicate RestrictionMatches(r: Restriction, operation: string, c: Context) {
    match r.appliesTo
    case Single(selector) => SelectorMatches(if selector == "" then "grant" else selector, operation, c)
    case Selectors(selectors) => selectors == [] || AnySelector(selectors, operation, c)
    case Structured(op, actions, entities) =>
      if op != "" && !SelectorMatches(op, operation, c) then false
      else if actions != [] then AnySelector(actions, operation, c)
      else if entities != [] then exists i :: 0 <= i < |c.entityIds| && EntityAllowed(c.entityIds[i], Elements(entities))
      else true
  }

  /** Whether the restriction is in force for the operation. */
  predicate Active(r: Restriction, operation: string, c: Context) {
    r.enabled && RestrictionMatches(r, operation, c)
  }

  predicate ScheduleAllows(p: Params, now: Now) {
    if p.days.Some? && now.weekday !in p.days.value then false
    else if p.start.None? && p.end.None? then true
    else if p.start.None? || p.end.None? then false
    else if p.start.value <= p.end.value then p.start.value <= now.timeOfDay <= p.end.value
    else now.timeOfDay >= p.start.value || now.timeOfDay <= p.end.value
  }

  predicate IsExpiry(t: string) { t in {"expiry", "expires_at", "ttl"} }

  predicate IsSchedule(t: string) { t in {"schedule", "time_window"} }

  predicate IsLimiter(r: Restriction) { Lower(r.typ) in {"rate_limit", "cooldown"} }

  predicate IsTemplate(r: Restriction) { Lower(r.typ) == "template" }

  function PinFor(c: Context, id: string): Option<string> {
    if id in c.pins then Some(c.pins[id]) else c.pin
  }

  function IdOr(r: Restriction, fallback: string): string {
    if r.id != "" then r.id else fallback
  }

  /** The stateless part of a restriction. */
  predicate StatelessAllows(r: Restriction, c: Context, now: Now) {
    var t := Lower(r.typ);
    if IsExpiry(t) then r.params.expiresAt.Some? && now.instant < r.params.expiresAt.value
    else if IsSchedule(t) then ScheduleAllows(r.params, now)
    else if t == "pin" then
      r.params.pinHash.Some? && PinFor(c, IdOr(r, t)) == r.params.pinHash
    else t in {"rate_limit", "cooldown", "template"}
  }

  /** The first active restriction that denies, if any. */
  function FirstDenial(rs: seq<Restriction>, operation: string, c: Context, now: Now): (d: Option<Restriction>)
    ensures d.None? <==> forall r :: r in rs && Active(r, operation, c) ==> StatelessAllows(r, c, now)
    ensures d.Some? ==> d.value in rs && Active(d.value, operation, c) && !StatelessAllows(d.value, c, now)
    decreases |rs|
  {
    if rs == [] then None
    else
      assert forall r :: r in rs <==> r == rs[0] || r in rs[1..];
      if Active(rs[0], operation, c) && !StatelessAllows(rs[0], c, now) then Some(rs[0])
      else FirstDenial(rs[1..], operation, c, now)
  }

  /** The active limiters, in order. */
  function ActiveLimiters(rs: seq<Restriction>, operation: string, c: Context): (out: seq<Restriction>)
    ensures forall r :: r in out <==> r in rs && IsLimiter(r) && Active(r, operation, c)
    decreases |rs|
  {
    if rs == [] then []
    else
      assert forall r :: r in rs <==> r == rs[0] || r in rs[1..];
      var rest := ActiveLimiters(rs[1..], operation, c);
      if IsLimiter(rs[0]) && Active(rs[0], operation, c) then [rs[0]] + rest else rest
  }

  /** The active templates, in order. */
  function ActiveTemplates(rs: seq<Restriction>, operation: string, c: Context): (out: seq<Restriction>)
    ensures forall r :: r in out <==> r in rs && IsTemplate(r) && Active(r, operation, c)
    decreases |rs|
  {
    if rs == [] then []
    else
      assert forall r :: r in rs <==> r == rs[0] || r in rs[1..];
      var rest := ActiveTemplates(rs[1..], operation, c);
      if IsTemplate(rs[0]) && Active(rs[0], operation, c) then [rs[0]] + rest else rest
  }

  method EvaluateRestrictions(rs: seq<Restriction>, operation: string, c: Context, now: Now) returns (d: Option<Restriction>)
    ensures d == FirstDenial(rs, operation, c, now)
  {
    hide Active, StatelessAllows;
    var i := 0;
    while i < |rs|
      invariant 0 <= i <= |rs| && FirstDenial(rs, operation, c, now) == FirstDenial(rs[i..], operation, c, now)
    {
      if Active(rs[i], operation, c) && !StatelessAllows(rs[i], c, now) {
        return Some(rs[i]);
      }
      assert rs[i..][1..] == rs[i + 1..];
      i := i + 1;
    }
    d := None;
  }

  method RateLimitRestrictions(rs: seq<Restriction>, operation: string, c: Context) returns (matches: seq<Restriction>)
    ensures matches == ActiveLimiters(rs, operation, c)
  {
    hide Active, IsLimiter;
    matches := [];
    for i := 0 to |rs|
      invariant ActiveLimiters(rs, operation, c) == matches + ActiveLimiters(rs[i..], operation, c)
    {
      ghost var before := matches;
      if IsLimiter(rs[i]) && Active(rs[i], operation, c) {
        matches := matches + [rs[i]];
      }
      assert matches + ActiveLimiters(rs[i + 1..], operation, c) == before + ActiveLimiters(rs[i..], operation, c) by {
        assert rs[i..][1..] == rs[i + 1..];
      }
    }
  }

  method TemplateRestrictions(rs: seq<Restriction>, operation: string, c: Context) returns (matches: seq<Restriction>)
    ensures matches == ActiveTemplates(rs, operation, c)
  {
    hide Active, IsTemplate;
    matches := [];
    for i := 0 to |rs|
      invariant ActiveTemplates(rs, operation, c) == matches + ActiveTemplates(rs[i..], operation, c)
    {
      ghost var before := matches;
      if IsTemplate(rs[i]) && Active(rs[i], operation, c) {
        matches := matches + [rs[i]];
      }
      assert matches + ActiveTemplates(rs[i + 1..], operation, c) == before + ActiveTemplates(rs[i..], operation, c) by {
        assert rs[i..][1..] == rs[i + 1..];
      }
    }
  }
}

/** Trimming a requested manifest to what the owner approved. */
module Trimming {
  import opened Lists
  import opened Policy

  /** No camelCase spelling: the form in which requests are stored. */
  predicate Canonical(m: Manifest) {
    "readEntities" !in m && "cameraSnapshots" !in m
  }

  method TrimManifest(requested: Manifest, approved: Manifest) returns (trimmed: Manifest)
    ensures trimmed == Trim(requested, approved)
  {
    hide KeyOf, AliasOf, Keep, Dedup, EitherSpelling;
    trimmed := requested;
    var i := 0;
    while i < |SCOPES|
      invariant 0 <= i <= |SCOPES|
      invariant trimmed == TrimScopes(requested, requested, approved, SCOPES[..i])
    {
      var s := SCOPES[i];
      assert SCOPES[..i + 1][..i] == SCOPES[..i];
      var values := ListOf(requested, KeyOf(s)) + (if AliasOf(s) == KeyOf(s) then [] else ListOf(requested, AliasOf(s)));
      var requestedValues := WithoutRepeats(values);
      var kept := KeepApproved(requestedValues, EitherSpelling(approved, s));
      trimmed := (trimmed - {KeyOf(s), AliasOf(s)})[KeyOf(s) := Listed(kept)];
      i := i + 1;
    }
    assert SCOPES[..i] == SCOPES;
  }

  method WithoutRepeats(values: seq<string>) returns (requested: seq<string>)
    ensures requested == Dedup(values)
  {
    requested := [];
    for j := 0 to |values|
      invariant requested == Dedup(values[..j])
    {
      assert values[..j + 1][..j] == values[..j];
      if values[j] !in requested {
        requested := requested + [values[j]];
      }
    }
    assert values[..|values|] == values;
  }

  method KeepApproved(values: seq<string>, approved: set<string>) returns (kept: seq<string>)
    ensures kept == Keep(values, approved)
  {
    kept := [];
    for k := 0 to |values|
      invariant kept == Keep(values[..k], approved)
    {
      assert values[..k + 1][..k] == values[..k];
      if values[k] in approved {
        kept := kept + [values[k]];
      }
    }
    assert values[..|values|] == values;
  }

  lemma {:induction false} DedupSame(items: seq<string>)
    ensures Elements(Dedup(items)) == Elements(items)
    decreases |items|
  {
    if items != [] {
      var init, last := items[..|items| - 1], items[|items| - 1];
      DedupSame(init);
      assert items == init + [last];
      ElementsSnoc(init, last);
      ElementsSnoc(Dedup(init), last);
      assert last in Dedup(init) <==> last in Elements(Dedup(init));
    }
  }

  lemma {:induction false} KeepFilters(items: seq<string>, wanted: set<string>)
    ensures Elements(Keep(items, wanted)) == Elements(items) * wanted
    decreases |items|
  {
    if items != [] {
      var init, last := items[..|items| - 1], items[|items| - 1];
      KeepFilters(init, wanted);
      assert items == init + [last];
      ElementsSnoc(init, last);
      ElementsSnoc(Keep(init, wanted), last);
    }
  }

  lemma {:induction false} KeptWasThere(items: seq<string>, wanted: set<string>, x: string)
    requires x !in items
    ensures x !in Keep(items, wanted)
  {
    KeepFilters(items, wanted);
    assert x in Keep(items, wanted) ==> x in Elements(Keep(items, wanted));
  }

  lemma {:induction false} KeysDiffer(s: Scope, t: Scope)
    requires s != t
    ensures KeyOf(s) != KeyOf(t) && KeyOf(s) != AliasOf(t)
  {
    assert |"read_entities"| == 13 && |"subscriptions"| == 13 && |"history"| == 7 && |"camera_snapshots"| == 16 && |"actions"| == 7;
    assert |"readEntities"| == 12 && |"cameraSnapshots"| == 15;
    assert "read_entities"[0] == 'r' && "subscriptions"[0] == 's' && "history"[0] == 'h' && "actions"[0] == 'a';
  }

  /** After the scopes in the list, each of them holds its intersection. */
  lemma {:induction false} TrimmedList(requested: Manifest, approved: Manifest, scopes: seq<Scope>, s: Scope)
    requires s in scopes
    ensures var m := TrimScopes(requested, requested, approved, scopes);
      KeyOf(s) in m && m[KeyOf(s)] == Listed(Keep(Requested(requested, s), EitherSpelling(approved, s)))
    decreases |scopes|
  {
    hide KeyOf, AliasOf, Keep, Requested, EitherSpelling;
    var init, last := scopes[..|scopes| - 1], scopes[|scopes| - 1];
    if s != last {
      TrimmedList(requested, approved, init, s);
      KeysDiffer(s, last);
    }
  }

  lemma {:induction false} AllScopes(s: Scope)
    ensures s in SCOPES
  {
    assert SCOPES[0] == Reads && SCOPES[1] == Subscriptions && SCOPES[2] == History && SCOPES[3] == Cameras && SCOPES[4] == Actions;
  }

  lemma {:induction false} RequestedSet(m: Manifest, s: Scope)
    ensures Elements(Requested(m, s)) == EitherSpelling(m, s)
  {
    hide KeyOf;
    var a, b := ListOf(m, KeyOf(s)), if AliasOf(s) == KeyOf(s) then [] else ListOf(m, AliasOf(s));
    DedupSame(a + b);
    assert Elements(a + b) == Elements(a) + Elements(b);
  }

  /** Every scope of the trimmed manifest is the intersection of what was requested and what was approved, in either spelling. */
  lemma {:induction false} TrimIsIntersection(requested: Manifest, approved: Manifest, s: Scope)
    ensures ScopeSet(Trim(requested, approved), s) == EitherSpelling(requested, s) * EitherSpelling(approved, s)
  {
    hide KeyOf, AliasOf, Keep, Requested, EitherSpelling, TrimScopes, Elements;
    AllScopes(s);
    TrimmedList(requested, approved, SCOPES, s);
    RequestedSet(requested, s);
    KeepFilters(Requested(requested, s), EitherSpelling(approved, s));
  }

  lemma {:induction false} CanonicalSpelling(m: Manifest, s: Scope)
    requires Canonical(m)
    ensures EitherSpelling(m, s) == ScopeSet(m, s)
  {
  }

  /** A wider scope allows at least as much. */
  lemma {:induction false} EntityAllowedMonotone(entity: string, a: set<string>, b: set<string>)
    requires a <= b && EntityAllowed(entity, a)
    ensures EntityAllowed(entity, b)
  {
  }

  /** What the approval covers: subscriptions fall back on reads, like those of a manifest. */
  function ApprovedFor(approved: Manifest, s: Scope): set<string> {
    if s.Subscriptions? then EitherSpelling(approved, Subscriptions) + EitherSpelling(approved, Reads) else EitherSpelling(approved, s)
  }

  function AllowedFor(m: Manifest, s: Scope): set<string> {
    if s.Subscriptions? then SubscriptionEntities(m) else ScopeSet(m, s)
  }

  /** Trimming never widens: what the trimmed manifest allows, the request allowed and the approval covers. */
  lemma {:induction false} NeverWidens(requested: Manifest, approved: Manifest, s: Scope, entity: string)
    requires Canonical(requested)
    requires EntityAllowed(entity, AllowedFor(Trim(requested, approved), s))
    ensures EntityAllowed(entity, AllowedFor(requested, s)) && EntityAllowed(entity, ApprovedFor(approved, s))
  {
    hide Trim, EntityAllowed, EitherSpelling, ScopeSet;
    TrimIsIntersection(requested, approved, s);
    TrimIsIntersection(requested, approved, Reads);
    CanonicalSpelling(requested, s);
    CanonicalSpelling(requested, Reads);
    var t := AllowedFor(Trim(requested, approved), s);
    EntityAllowedMonotone(entity, t, AllowedFor(requested, s));
    EntityAllowedMonotone(entity, t, ApprovedFor(approved, s));
  }

  /** ... and the same for service calls, on an entity or on none. */
  lemma {:induction false} ActionsNeverWiden(requested: Manifest, approved: Manifest, domain: string, service: string, entity: string)
    requires Canonical(requested) && ActionAllowed(Trim(requested, approved), domain, service, entity)
    ensures ActionAllowed(requested, domain, service, entity)
    ensures ActionCandidates(domain, service, entity) * EitherSpelling(approved, Actions) != {}
  {
    hide Trim, ActionCandidates, EitherSpelling, ScopeSet;
    TrimIsIntersection(requested, approved, Actions);
    CanonicalSpelling(requested, Actions);
    var c := ActionCandidates(domain, service, entity);
    var x :| x in c * ActionScopes(Trim(requested, approved));
    assert x in c * ActionScopes(requested) && x in c * EitherSpelling(approved, Actions);
  }

  /** Approving the request itself changes no permission. */
  lemma {:induction false} ApprovingAllChangesNothing(requested: Manifest, s: Scope)
    requires Canonical(requested)
    ensures AllowedFor(Trim(requested, requested), s) == AllowedFor(requested, s)
  {
    hide Trim, EitherSpelling, ScopeSet;
    TrimIsIntersection(requested, requested, s);
    TrimIsIntersection(requested, requested, Reads);
    CanonicalSpelling(requested, s);
    CanonicalSpelling(requested, Reads);
  }

  /** For a manifest in any spelling, trimming adds nothing to a scope exactly if no approved value stands in its
      camelCase list alone. */
  lemma {:induction false} GainsExactly(requested: Manifest, approved: Manifest, s: Scope)
    ensures ScopeSet(Trim(requested, approved), s) <= ScopeSet(requested, s)
      <==> Elements(ListOf(requested, AliasOf(s))) * EitherSpelling(approved, s) <= ScopeSet(requested, s)
  {
    hide Trim, KeyOf, AliasOf, ListOf, Elements;
    TrimIsIntersection(requested, approved, s);
  }

  /** A manifest in camelCase, which validation keeps from being stored, would gain: trimming moves its list to the key
      that permissions are read from. */
  lemma {:induction false} CamelCaseRequestGains(entity: string)
    ensures var m: Manifest := map["readEntities" := Listed([entity])];
      ReadEntities(m) == {} && ReadEntities(Trim(m, m)) == {entity}
  {
    hide Trim;
    var m: Manifest := map["readEntities" := Listed([entity])];
    TrimIsIntersection(m, m, Reads);
    assert |"readEntities"| == 12 && |"read_entities"| == 13;
    assert ListOf(m, "read_entities") == [] && ListOf(m, "readEntities") == [entity];
    assert Elements([entity]) == {entity};
  }

  // ----- Idempotence -----

  lemma {:induction false} DedupHasNoRepeats(items: seq<string>)
    ensures NoRepeats(Dedup(items))
    decreases |items|
  {
    if items != [] {
      DedupHasNoRepeats(items[..|items| - 1]);
    }
  }

  lemma {:induction false} DedupKeeps(items: seq<string>)
    requires NoRepeats(items)
    ensures Dedup(items) == items
    decreases |items|
  {
    if items != [] {
      var init, last := items[..|items| - 1], items[|items| - 1];
      DedupKeeps(init);
      assert items == init + [last];
    }
  }

  lemma {:induction false} KeepKeepsOrder(items: seq<string>, wanted: set<string>)
    requires NoRepeats(items)
    ensures NoRepeats(Keep(items, wanted)) && Keep(Keep(items, wanted), wanted) == Keep(items, wanted)
    decreases |items|
  {
    if items != [] {
      var init, last := items[..|items| - 1], items[|items| - 1];
      KeepKeepsOrder(init, wanted);
      assert last !in init;
      KeptWasThere(init, wanted, last);
      var r := Keep(init, wanted);
      assert (r + [last])[..|r|] == r;
    }
  }

  lemma {:induction false} TrimRemovesAliases(trimmed: Manifest, requested: Manifest, approved: Manifest, scopes: seq<Scope>, s: Scope)
    requires s in scopes && AliasOf(s) != KeyOf(s)
    ensures AliasOf(s) !in TrimScopes(trimmed, requested, approved, scopes)
    decreases |scopes|
  {
    hide Keep, Requested, EitherSpelling;
    var init, last := scopes[..|scopes| - 1], scopes[|scopes| - 1];
    if s != last {
      KeysDiffer(last, s);
      TrimRemovesAliases(trimmed, requested, approved, init, s);
    }
  }

  lemma {:induction false} TrimIsCanonical(requested: Manifest, approved: Manifest)
    ensures Canonical(Trim(requested, approved))
  {
    AllScopes(Reads);
    AllScopes(Cameras);
    assert |"readEntities"| == 12 && |"read_entities"| == 13 && |"cameraSnapshots"| == 15 && |"camera_snapshots"| == 16;
    TrimRemovesAliases(requested, requested, approved, SCOPES, Reads);
    TrimRemovesAliases(requested, requested, approved, SCOPES, Cameras);
  }

  /** A second trimming would write back the list that is there. */
  lemma {:induction false} TrimmedListStays(requested: Manifest, approved: Manifest, s: Scope)
    ensures var t := Trim(requested, approved);
      KeyOf(s) in t && t[KeyOf(s)] == Listed(Keep(Requested(t, s), EitherSpelling(approved, s)))
  {
    hide Trim, TrimScopes, EitherSpelling, KeyOf, AliasOf, Dedup, Keep;
    var t := Trim(requested, approved);
    var wanted := EitherSpelling(approved, s);
    var first := Requested(requested, s);
    AllScopes(s);
    TrimmedList(requested, approved, SCOPES, s);
    TrimUnfolds(requested, approved);
    DedupHasNoRepeats(ListOf(requested, KeyOf(s)) + (if AliasOf(s) == KeyOf(s) then [] else ListOf(requested, AliasOf(s))));
    KeepKeepsOrder(first, wanted);
    AliasListIsEmpty(requested, approved, s);
    var list := ListOf(t, KeyOf(s));
    assert list == Keep(first, wanted) && list + [] == list;
    DedupKeeps(list);
    assert Requested(t, s) == list;
  }

  lemma {:induction false} TrimUnfolds(requested: Manifest, approved: Manifest)
    ensures Trim(requested, approved) == TrimScopes(requested, requested, approved, SCOPES)
  {
  }

  lemma {:induction false} AliasListIsEmpty(requested: Manifest, approved: Manifest, s: Scope)
    ensures AliasOf(s) == KeyOf(s) || ListOf(Trim(requested, approved), AliasOf(s)) == []
  {
    TrimIsCanonical(requested, approved);
  }

  lemma {:induction false} SecondTrimKeeps(requested: Manifest, approved: Manifest, scopes: seq<Scope>)
    ensures var t := Trim(requested, approved); TrimScopes(t, t, approved, scopes) == t
    decreases |scopes|
  {
    hide Trim, Keep, Requested, EitherSpelling;
    if scopes != [] {
      var t, last := Trim(requested, approved), scopes[|scopes| - 1];
      SecondTrimKeeps(requested, approved, scopes[..|scopes| - 1]);
      TrimmedListStays(requested, approved, last);
      TrimIsCanonical(requested, approved);
      assert TrimScope(t, t, approved, last) == t;
    }
  }

  /** Trimming twice is trimming once. */
  lemma {:induction false} Idempotent(requested: Manifest, approved: Manifest)
    ensures Trim(Trim(requested, approved), approved) == Trim(requested, approved)
  {
    SecondTrimKeeps(requested, approved, SCOPES);
    TrimUnfolds(Trim(requested, approved), approved);
  }
}
