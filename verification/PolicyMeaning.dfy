/** What scopes and restrictions mean, by their characters and their parameters. */
module PolicyMeaning {
  import opened Lists
  import opened Options
  import opened Policy

  // ----- Scopes -----

  /** The strings that a manifest lists under a key. */
  function ListedUnder(m: Manifest, key: string): set<string> {
    if key in m && m[key].Listed? then set x | x in m[key].items else {}
  }

  /** Each scope is the list under its key; what may be read may be subscribed to. */
  lemma {:induction false} ScopesAreListed(m: Manifest)
    ensures ReadEntities(m) == ListedUnder(m, "read_entities")
    ensures SubscriptionEntities(m) == ListedUnder(m, "subscriptions") + ListedUnder(m, "read_entities")
    ensures HistoryEntities(m) == ListedUnder(m, "history")
    ensures CameraEntities(m) == ListedUnder(m, "camera_snapshots")
    ensures ActionScopes(m) == ListedUnder(m, "actions")
  {
  }

  /** `d` stands before the first dot of the entity id, or both have none. */
  predicate InDomain(entity: string, d: string) {
    if '.' in entity then '.' !in d && d + "." <= entity else d == ""
  }

  /** `d.*` */
  predicate IsDomainScope(scope: string, d: string) {
    |scope| == |d| + 2 && scope[..|d|] == d && scope[|d|] == '.' && scope[|d| + 1] == '*'
  }

  /** A listed scope is the entity itself, a star, or the entity's domain with a star. */
  ghost predicate GrantsEntity(listed: set<string>, entity: string) {
    entity in listed || "*" in listed || exists scope, d :: scope in listed && IsDomainScope(scope, d) && InDomain(entity, d)
  }

  /** A listed action is the service on the entity, any service of the domain on it, anything on it, or the whole domain if
      the entity is of that domain; a call on no entity needs the whole domain. */
  ghost predicate GrantsCall(listed: set<string>, domain: string, service: string, entity: string) {
    if entity == "" then exists scope :: scope in listed && IsDomainScope(scope, domain)
    else
      || domain + "." + service + "@" + entity in listed
      || domain + ".*@" + entity in listed
      || "*@" + entity in listed
      || (InDomain(entity, domain) && exists scope :: scope in listed && IsDomainScope(scope, domain))
  }

  lemma {:induction false} BeforeDotIs(entity: string)
    requires '.' in entity
    ensures var d := BeforeDot(entity); '.' !in d && d + "." <= entity
    decreases |entity|
  {
    if entity[0] != '.' {
      BeforeDotIs(entity[1..]);
      assert entity == [entity[0]] + entity[1..];
    }
  }

  /** Two prefixes up to a first dot are the same. */
  lemma {:induction false} OneFirstDot(entity: string, a: string, b: string)
    requires '.' !in a && '.' !in b && a + "." <= entity && b + "." <= entity
    ensures a == b
  {
    UpToDot(entity, a);
    UpToDot(entity, b);
  }

  lemma {:induction false} UpToDot(entity: string, a: string)
    requires '.' !in a && a + "." <= entity
    ensures entity[|a|] == '.' && a == entity[..|a|] && forall i :: 0 <= i < |a| ==> entity[i] != '.'
  {
    assert entity[|a|] == (a + ".")[|a|];
    assert a == (a + ".")[..|a|] == entity[..|a|];
    forall i | 0 <= i < |a|
      ensures entity[i] != '.'
    {
      assert entity[i] == entity[..|a|][i] == a[i];
      assert a[i] in a;
    }
  }

  lemma {:induction false} DomainIs(entity: string, d: string)
    ensures InDomain(entity, d) <==> DomainOf(entity) == d
  {
    if '.' in entity {
      BeforeDotIs(entity);
      if InDomain(entity, d) {
        OneFirstDot(entity, d, BeforeDot(entity));
      }
    }
  }

  lemma {:induction false} DomainScopeIs(scope: string, d: string)
    ensures IsDomainScope(scope, d) <==> scope == d + ".*"
  {
    if IsDomainScope(scope, d) {
      assert scope == scope[..|d|] + [scope[|d|], scope[|d| + 1]];
    }
  }

  /** What an entity scope covers, by its characters. */
  lemma {:induction false} EntityAllowedExactly(entity: string, allowed: set<string>)
    ensures EntityAllowed(entity, allowed) <==> GrantsEntity(allowed, entity)
  {
    var d := DomainOf(entity);
    DomainIs(entity, d);
    DomainScopeIs(d + ".*", d);
    if scope, x :| scope in allowed && IsDomainScope(scope, x) && InDomain(entity, x) {
      DomainIs(entity, x);
      DomainScopeIs(scope, x);
    }
  }

  lemma {:induction false} CandidatesAre(domain: string, service: string, entity: string, listed: set<string>)
    ensures ActionCandidates(domain, service, entity) * listed != {} <==> GrantsCall(listed, domain, service, entity)
  {
    var wide := domain + ".*";
    var candidates := ActionCandidates(domain, service, entity);
    DomainScopeIs(wide, domain);
    if entity != "" {
      DomainIs(entity, domain);
    }
    forall scope | IsDomainScope(scope, domain)
      ensures scope == wide
    {
      DomainScopeIs(scope, domain);
    }
    if x :| x in candidates * listed {
      assert x in listed;
    }
    if GrantsCall(listed, domain, service, entity) {
      var x :| x in candidates && x in listed;
      assert x in candidates * listed;
    }
  }

  /** What an action scope covers, by its characters. */
  lemma {:induction false} ActionAllowedExactly(m: Manifest, domain: string, service: string, entity: string)
    ensures ActionAllowed(m, domain, service, entity) <==> GrantsCall(ListedUnder(m, "actions"), domain, service, entity)
  {
    ScopesAreListed(m);
    CandidatesAre(domain, service, entity, ListedUnder(m, "actions"));
  }

  // ----- Texts -----

  /** Lower case is the same text with the letters A to Z replaced. */
  lemma {:induction false} LowerIs(s: string)
    ensures forall i :: 0 <= i < |s| ==> Lower(s)[i] == if 'A' <= s[i] <= 'Z' then s[i] - 'A' + 'a' else s[i]
    decreases |s|
  {
    if s != "" {
      LowerIs(s[1..]);
      assert forall i :: 0 < i < |s| ==> Lower(s)[i] == Lower(s[1..])[i - 1] && s[i] == s[1..][i - 1];
    }
  }

  predicate AllBlank(s: string) {
    forall i :: 0 <= i < |s| ==> s[i] in {' ', '\t', '\n', '\r'}
  }

  /** `s` is `t` between blanks, and `t` starts and ends with none. */
  ghost predicate IsStripped(s: string, t: string) {
    && (exists before, after :: s == before + t + after && AllBlank(before) && AllBlank(after))
    && (t != "" ==> t[0] !in {' ', '\t', '\n', '\r'} && t[|t| - 1] !in {' ', '\t', '\n', '\r'})
  }

  lemma {:induction false} BlanksAround(x: string, s: string, y: string, t: string)
    requires IsStripped(s, t) && AllBlank(x) && AllBlank(y)
    ensures IsStripped(x + s + y, t)
  {
    var before, after :| s == before + t + after && AllBlank(before) && AllBlank(after);
    assert x + s + y == (x + before) + t + (after + y);
    assert AllBlank(x + before) && AllBlank(after + y);
  }

  /** The text without the blanks at its ends. */
  lemma {:induction false} StripIs(s: string)
    ensures IsStripped(s, Strip(s))
    decreases |s|
  {
    hide IsStripped;
    if s != "" && IsBlank(s[0]) {
      StripIs(s[1..]);
      BlanksAround([s[0]], s[1..], "", Strip(s));
      assert s == [s[0]] + s[1..] + "";
    } else if s != "" && IsBlank(s[|s| - 1]) {
      StripIs(s[..|s| - 1]);
      BlanksAround("", s[..|s| - 1], [s[|s| - 1]], Strip(s));
      assert s == "" + s[..|s| - 1] + [s[|s| - 1]];
    } else {
      Unblanked(s);
    }
  }

  lemma {:induction false} Unblanked(s: string)
    requires s != "" ==> !IsBlank(s[0]) && !IsBlank(s[|s| - 1])
    ensures IsStripped(s, s)
  {
    assert s == "" + s + "" && AllBlank("");
  }

  // ----- What a restriction applies to -----

  /** The names of an operation in a selector. */
  function NamesOf(operation: string): set<string> {
    match operation
    case "read" => {"read", "reads", "get_states"}
    case "subscribe" => {"subscribe", "subscription", "subscriptions", "subscribe_states"}
    case "history" => {"history", "history_query"}
    case "camera" => {"camera", "camera_snapshot", "camera_snapshots"}
    case "action" => {"action", "actions", "write", "writes", "call_service"}
    case _ => {}
  }

  predicate IsOperationName(name: string) {
    exists operation :: operation in {"read", "subscribe", "history", "camera", "action"} && name in NamesOf(operation)
  }

  /** A selector names everything, the operation, or an action scope that covers a target of the call, or its lack of targets. */
  ghost predicate Selects(raw: string, operation: string, c: Context) {
    var selector := Strip(raw);
    var name := Lower(selector);
    || name in {"grant", "*"}
    || name in NamesOf(operation)
    || (operation == "action" && !IsOperationName(name) && SelectsCall(selector, c))
  }

  ghost predicate SelectsCall(selector: string, c: Context) {
    if c.entityIds == [] then GrantsCall({selector}, c.domain, c.service, "")
    else exists i :: 0 <= i < |c.entityIds| && GrantsCall({selector}, c.domain, c.service, c.entityIds[i])
  }

  lemma {:induction false} ContextCandidatesAre(c: Context, entities: seq<string>, selector: string)
    ensures selector in ContextCandidates(c, entities)
      <==> exists i :: 0 <= i < |entities| && GrantsCall({selector}, c.domain, c.service, entities[i])
    decreases |entities|
  {
    hide ActionCandidates, GrantsCall;
    if entities != [] {
      ContextCandidatesAre(c, entities[1..], selector);
      CandidatesAre(c.domain, c.service, entities[0], {selector});
      OneIn(ActionCandidates(c.domain, c.service, entities[0]), selector);
      if i :| 0 <= i < |entities[1..]| && GrantsCall({selector}, c.domain, c.service, entities[1..][i]) {
        assert GrantsCall({selector}, c.domain, c.service, entities[i + 1]);
      }
      if i :| 0 <= i < |entities| && GrantsCall({selector}, c.domain, c.service, entities[i]) {
        assert i > 0 ==> entities[1..][i - 1] == entities[i];
      }
    }
  }

  lemma {:induction false} OneIn(s: set<string>, x: string)
    ensures x in s <==> s * {x} != {}
  {
    if x in s {
      assert x in s * {x};
    }
  }

  lemma {:induction false} NoOtherNames(name: string)
    ensures IsOperationName(name) <==>
      name in NamesOf("read") || name in NamesOf("subscribe") || name in NamesOf("history") || name in NamesOf("camera") || name in NamesOf("action")
  {
    hide NamesOf;
  }

  /** No name stands for two operations. */
  lemma {:induction false} FirstLetters(name: string)
    ensures name in NamesOf("read") ==> name[0] == 'r' || name[0] == 'g'
    ensures name in NamesOf("subscribe") ==> name[0] == 's'
    ensures name in NamesOf("history") ==> name[0] == 'h'
    ensures name in NamesOf("camera") ==> name[0] == 'c' && |name| > 2 && name[2] == 'm'
    ensures name in NamesOf("action") ==> name[0] == 'a' || name[0] == 'w' || (name[0] == 'c' && |name| > 2 && name[2] == 'l')
  {
    assert NamesOf("read") == {"read", "reads", "get_states"};
    assert NamesOf("subscribe") == {"subscribe", "subscription", "subscriptions", "subscribe_states"};
    assert NamesOf("history") == {"history", "history_query"};
    assert NamesOf("camera") == {"camera", "camera_snapshot", "camera_snapshots"};
    assert NamesOf("action") == {"action", "actions", "write", "writes", "call_service"};
  }

  /** What a selector matches. */
  lemma {:induction false} SelectorMatchesExactly(raw: string, operation: string, c: Context)
    requires operation in {"read", "subscribe", "history", "camera", "action"}
    ensures SelectorMatches(raw, operation, c) <==> Selects(raw, operation, c)
  {
    hide Strip, Lower, SelectsCall, IsOperationName, ContextCandidates;
    var selector := Strip(raw);
    NoOtherNames(Lower(selector));
    FirstLetters(Lower(selector));
    CallIsSelected(selector, c);
  }

  lemma {:induction false} CallIsSelected(selector: string, c: Context)
    ensures selector in ContextCandidates(c, if c.entityIds == [] then [""] else c.entityIds) <==> SelectsCall(selector, c)
  {
    hide GrantsCall, ContextCandidates;
    if c.entityIds == [] {
      ContextCandidatesAre(c, [""], selector);
      assert [""][0] == "";
    } else {
      ContextCandidatesAre(c, c.entityIds, selector);
    }
  }

  /** Whether a restriction is in force for an operation: all of them, those that a selector names, or those on an entity. */
  ghost predicate InForce(r: Restriction, operation: string, c: Context) {
    && r.enabled
    && match r.appliesTo
       case Single(selector) => selector == "" || Selects(selector, operation, c)
       case Selectors(selectors) => selectors == [] || exists i :: 0 <= i < |selectors| && Selects(selectors[i], operation, c)
       case Structured(op, actions, entities) =>
         && (op == "" || Selects(op, operation, c))
         && (if actions != [] then exists i :: 0 <= i < |actions| && Selects(actions[i], operation, c)
             else entities == [] || exists i :: 0 <= i < |c.entityIds| && GrantsEntity((set x | x in entities), c.entityIds[i]))
  }

  lemma {:induction false} AnySelectorIs(selectors: seq<string>, operation: string, c: Context)
    requires operation in {"read", "subscribe", "history", "camera", "action"}
    ensures AnySelector(selectors, operation, c) <==> exists i :: 0 <= i < |selectors| && Selects(selectors[i], operation, c)
  {
    hide Selects, SelectorMatches;
    forall i | 0 <= i < |selectors|
      ensures SelectorMatches(selectors[i], operation, c) <==> Selects(selectors[i], operation, c)
    {
      SelectorMatchesExactly(selectors[i], operation, c);
    }
  }

  lemma {:induction false} EmptySelector(operation: string, c: Context)
    ensures SelectorMatches("grant", operation, c)
  {
    assert Strip("grant") == "grant" && Lower("grant") == "grant";
  }

  lemma {:induction false} ActiveExactly(r: Restriction, operation: string, c: Context)
    requires operation in {"read", "subscribe", "history", "camera", "action"}
    ensures Active(r, operation, c) <==> InForce(r, operation, c)
  {
    hide Selects, SelectorMatches, AnySelector, GrantsEntity, EntityAllowed;
    match r.appliesTo
    case Single(selector) =>
      if selector == "" {
        EmptySelector(operation, c);
      } else {
        SelectorMatchesExactly(selector, operation, c);
      }
    case Selectors(selectors) => AnySelectorIs(selectors, operation, c);
    case Structured(op, actions, entities) =>
      SelectorMatchesExactly(op, operation, c);
      AnySelectorIs(actions, operation, c);
      forall i | 0 <= i < |c.entityIds|
        ensures EntityAllowed(c.entityIds[i], Elements(entities)) <==> GrantsEntity((set x | x in entities), c.entityIds[i])
      {
        EntityAllowedExactly(c.entityIds[i], Elements(entities));
      }
  }

  // ----- What a restriction lets pass -----

  /** On the clock, going on from the start, the time comes no later than the end. */
  predicate OnTheClock(start: nat, end: nat, time: nat) {
    start <= time <= end || (end < start && !(end < time < start))
  }

  predicate OnSchedule(p: Params, now: Now) {
    && (p.days.None? || now.weekday in p.days.value)
    && (p.start.None? <==> p.end.None?)
    && (p.start.Some? && p.end.Some? ==> OnTheClock(p.start.value, p.end.value, now.timeOfDay))
  }

  /** The PIN given under the restriction's id, or else the general one, is the one that the restriction holds. */
  ghost predicate HasPin(r: Restriction, c: Context) {
    var id := if r.id != "" then r.id else "pin";
    exists pin :: r.params.pinHash == Some(pin) && (if id in c.pins then c.pins[id] == pin else c.pin == Some(pin))
  }

  /** Expiries, schedules and PINs by their own terms; limiters and templates are asked elsewhere; nothing else passes. */
  ghost predicate LetsPass(r: Restriction, c: Context, now: Now) {
    match Lower(r.typ)
    case "expiry" => r.params.expiresAt.Some? && now.instant < r.params.expiresAt.value
    case "expires_at" => r.params.expiresAt.Some? && now.instant < r.params.expiresAt.value
    case "ttl" => r.params.expiresAt.Some? && now.instant < r.params.expiresAt.value
    case "schedule" => OnSchedule(r.params, now)
    case "time_window" => OnSchedule(r.params, now)
    case "pin" => HasPin(r, c)
    case "rate_limit" => true
    case "cooldown" => true
    case "template" => true
    case _ => false
  }

  lemma {:induction false} StatelessAllowsExactly(r: Restriction, c: Context, now: Now)
    ensures StatelessAllows(r, c, now) <==> LetsPass(r, c, now)
  {
    hide Lower;
  }
}
