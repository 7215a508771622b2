/** The walk over a config. */
module Harvesting {
  import opened Options
  import Policy
  import opened HarvestSpec

  class Harvester {
    var refs: map<string, seq<Context>>
    var readEntities: set<string>
    var subscriptions: set<string>
    var history: set<string>
    var cameras: set<string>
    var warnings: seq<Warning>
    var cards: seq<DashCard>

    ghost function State(): Tally
      reads this
    {
      Tally(readEntities, subscriptions, history, cameras, RefSet(refs), WarningSet(warnings))
    }

    /** No entity lists a context twice. */
    ghost predicate Valid()
      reads this
    {
      DistinctContexts(refs)
    }

    constructor ()
      ensures State() == Tally({}, {}, {}, {}, {}, {}) && cards == [] && Valid()
    {
      refs, readEntities, subscriptions, history, cameras, warnings, cards := map[], {}, {}, {}, {}, [], [];
    }

    method Warn(path: Path, kind: Kind)
      modifies this`warnings
      ensures State() == old(State()).(warnings := old(State()).warnings + {Warning(path, kind)})
    {
      WarningSnoc(warnings, Warning(path, kind));
      warnings := warnings + [Warning(path, kind)];
    }

    method AddReference(e: string, context: Context)
      requires Valid()
      modifies this`refs
      ensures State() == old(State()).(refs := old(State()).refs + {(e, context)})
      ensures Valid()
    {
      var contexts := if e in refs then refs[e] else [];
      if context !in contexts {
        ReferenceAdded(refs, e, context);
        refs := refs[e := contexts + [context]];
      } else {
        assert (e, context) in RefSet(refs);
      }
    }

    method RefsFromValue(v: Json, path: Path) returns (result: set<string>)
      modifies this`warnings
      ensures result == ValueRefs(v)
      ensures State() == old(State()).(warnings := old(State()).warnings + ValueWarnings(v, path))
      decreases v, 1
    {
      hide IsEntity, Contains, Member, WarningSet, RefSet;
      result := {};
      ghost var before := State();
      assert before.warnings + {} == before.warnings;
      match v
      case Str(s) =>
        if IsEntity(s) {
          result := {s};
        } else if Contains(s, "{{") || Contains(s, "[[") {
          Warn(path, Unresolved);
        }
      case List(_) => result := RefsFromList(v, path);
      case Obj(fields) =>
        if HasKey(fields, "entity") {
          if Member(v, "entity") != Null {
            result := RefsFromValue(Member(v, "entity"), path + [Key("entity")]);
          }
        } else if HasKey(fields, "type") && "custom:" <= Text(Member(v, "type")) {
          Warn(path, CustomRow);
        }
      case _ =>
    }

    method RefsFromList(v: Json, path: Path) returns (result: set<string>)
      requires v.List?
      modifies this`warnings
      ensures result == ValueRefs(v)
      ensures State() == old(State()).(warnings := old(State()).warnings + ValueWarnings(v, path))
      decreases v, 0
    {
      hide WarningSet, RefSet;
      ghost var before := State();
      assert before.warnings + {} == before.warnings;
      result := {};
      for i := 0 to |v.items|
        invariant result == ItemRefs(v, i)
        invariant State() == before.(warnings := before.warnings + ItemWarnings(v, path, i))
      {
        var more := RefsFromValue(v.items[i], path + [At(i)]);
        result := result + more;
        assert before.warnings + ItemWarnings(v, path, i) + ValueWarnings(v.items[i], path + [At(i)])
          == before.warnings + ItemWarnings(v, path, i + 1);
      }
    }

    /** Returns the set of what the source returns as a sorted list without repeats. */
    method RefsFromNamedKeys(v: Json, path: Path) returns (result: set<string>)
      requires v.Obj?
      modifies this`warnings
      ensures result == NamedRefs(v)
      ensures State() == old(State()).(warnings := old(State()).warnings + NamedWarnings(v, path))
      decreases v, 2
    {
      hide WarningSet, RefSet, FieldRefs, FieldWarnings;
      ghost var before := State();
      assert before.warnings + {} == before.warnings;
      result := {};
      for i := 0 to |v.fields|
        invariant result == FieldsRefs(v, i)
        invariant State() == before.(warnings := before.warnings + FieldsWarnings(v, path, i))
      {
        var f := v.fields[i];
        var more := RefsFromField(f.key, f.value, path + [Key(f.key)]);
        result := result + more;
        assert before.warnings + FieldsWarnings(v, path, i) + FieldWarnings(f.key, f.value, path + [Key(f.key)])
          == before.warnings + FieldsWarnings(v, path, i + 1);
      }
    }

    method RefsFromField(key: string, value: Json, path: Path) returns (result: set<string>)
      modifies this`warnings
      ensures result == FieldRefs(key, value)
      ensures State() == old(State()).(warnings := old(State()).warnings + FieldWarnings(key, value, path))
      decreases value, 3
    {
      hide WarningSet, RefSet;
      ghost var before := State();
      assert before.warnings + {} == before.warnings;
      result := {};
      if IsChildKey(key) {
        return;
      }
      if IsEntityKey(key) {
        result := RefsFromValue(value, path);
        return;
      }
      if value.Obj? {
        result := RefsFromNamedKeys(value, path);
      } else if value.List? {
        for i := 0 to |value.items|
          invariant result == NestedRefs(value, i)
          invariant State() == before.(warnings := before.warnings + NestedWarnings(value, path, i))
        {
          if value.items[i].Obj? {
            var more := RefsFromNamedKeys(value.items[i], path + [At(i)]);
            result := result + more;
          }
          assert before.warnings + NestedWarnings(value, path, i) + NamedWarnings(value.items[i], path + [At(i)])
            == before.warnings + NestedWarnings(value, path, i + 1);
        }
      }
    }

    // ----- One card -----

    method AddReads(es: set<string>, context: Context)
      requires Valid()
      modifies this`readEntities, this`subscriptions, this`refs
      ensures State() == WithReads(old(State()), es, context)
      ensures Valid()
    {
      hide DistinctContexts, RefSet, WarningSet, WithReads;
      var rest := es;
      ghost var was, done: set<string> := State(), {};
      WithNone(was, context);
      while rest != {}
        invariant Valid()
        invariant done + rest == es && State() == WithReads(was, done, context)
        decreases |rest|
      {
        var e :| e in rest;
        WithOneMore(was, done, e, context);
        readEntities := readEntities + {e};
        subscriptions := subscriptions + {e};
        AddReference(e, context);
        rest, done := rest - {e}, done + {e};
      }
      assert done == es;
    }

    /** Keeps the camera entities among the references of a camera card. */
    method AddCameras(es: set<string>, context: Context) returns (added: set<string>)
      requires Valid()
      modifies this`cameras, this`refs
      ensures added == CamerasAmong(es)
      ensures State() == WithCameras(old(State()), added, context)
      ensures Valid()
    {
      hide DistinctContexts, RefSet, WarningSet, WithCameras, CamerasAmong, IsCamera;
      var rest := es;
      ghost var was, done: set<string> := State(), {};
      added := {};
      WithNone(was, context);
      CamerasOfNone();
      while rest != {}
        invariant Valid()
        invariant done + rest == es && added == CamerasAmong(done) && State() == WithCameras(was, added, context)
        decreases |rest|
      {
        var e :| e in rest;
        CamerasMore(done, e);
        if IsCamera(e) {
          WithOneMore(was, added, e, context);
          cameras := cameras + {e};
          added := added + {e};
          AddReference(e, context);
        }
        rest, done := rest - {e}, done + {e};
      }
      assert done == es;
    }

    method WarnDynamicCard(card: Json, path: Path)
      requires card.Obj?
      modifies this`warnings
      ensures State() == old(State()).(warnings := old(State()).warnings + DynamicWarnings(card, path))
    {
      hide RefSet, WarningSet, Contains, CardType, HasTemplate;
      var t := CardType(card);
      ghost var was := State();
      if "custom:" <= t {
        Warn(path, CustomCard);
      }
      if Contains(t, "auto-entities") {
        Warn(path, AutoEntities);
      }
      if t in {"area", "tile", "weather", "weather-forecast"} {
        Warn(path, Dynamic);
      }
      if HasTemplate(card) {
        Warn(path, TemplateContent);
      }
      assert State().warnings == was.warnings + DynamicWarnings(card, path);
    }

    /** The part of the walk that concerns the card itself. */
    method WalkOwn(view: string, card: Json, path: Path) returns (entities: set<string>)
      requires Valid()
      modifies `refs, `readEntities, `subscriptions, `history, `cameras, `warnings
      ensures State() == Add(old(State()), {Node(view, path, card)}) && entities == OwnRefs(card)
      ensures Valid()
    {
      hide DistinctContexts, RefSet, WarningSet, NamedRefs, NamedWarnings, ValueRefs, ValueWarnings, DynamicWarnings,
        CardType, Member, ReadsOf, HistoryOf, CamerasOf, EntitiesOf, RefsOf, WarningsOf;
      ghost var n := Node(view, path, card);
      ghost var was := State();
      OfOneNode(n);
      if !card.Obj? {
        Warn(path, CardNotObject);
        OwnNothing(was, n);
        return {};
      }
      WarnDynamicCard(card, path);
      var context := Context(view, CardType(card), path);
      var direct := RefsFromNamedKeys(card, path);
      entities := direct;
      AddReads(direct, context);
      if IsHistoryCard(card) {
        history := history + direct;
      }
      var cameraRefs: set<string> := {};
      if IsCameraCard(card) {
        var image := RefsFromValue(Member(card, "camera_image"), path + [Key("camera_image")]);
        cameraRefs := AddCameras(direct + image, context);
        entities := entities + cameraRefs;
      }
      assert cameraRefs == CameraRefs(card);
      PairsOfUnion(direct, cameraRefs, context);
      assert State().refs == was.refs + RefsOf({n});
      assert State().warnings == was.warnings + OwnWarnings(card, path);
      assert State() == Add(was, {n});
    }

    // ----- The walk -----

    method WalkCard(view: string, card: Json, path: Path) returns (entities: set<string>)
      requires Valid()
      modifies `refs, `readEntities, `subscriptions, `history, `cameras, `warnings
      ensures State() == Add(old(State()), Nodes(view, card, path)) && entities == EntitiesOf(Nodes(view, card, path))
      ensures Valid()
      decreases card, 1
    {
      hide DistinctContexts, RefSet, WarningSet, Add, EntitiesOf, OwnRefs, AllUnder;
      ghost var own := {Node(view, path, card)};
      ghost var was := State();
      OfOneNode(Node(view, path, card));
      entities := WalkOwn(view, card, path);
      assert own + {} == own;
      if card.Obj? {
        var inCards := WalkChildren(view, card, "cards", path);
        var inElements := WalkChildren(view, card, "elements", path);
        var inCard := WalkChildren(view, card, "card", path);
        entities := entities + inCards + inElements + inCard;
        AddFour(was, own, AllUnder(view, card, "cards", path), AllUnder(view, card, "elements", path), AllUnder(view, card, "card", path));
      }
    }

    method WalkChildren(view: string, card: Json, key: string, path: Path) returns (entities: set<string>)
      requires Valid()
      requires card.Obj?
      modifies `refs, `readEntities, `subscriptions, `history, `cameras, `warnings
      ensures State() == Add(old(State()), AllUnder(view, card, key, path)) && entities == EntitiesOf(AllUnder(view, card, key, path))
      ensures Valid()
      decreases card, 0
    {
      hide DistinctContexts, RefSet, WarningSet, Add, EntitiesOf, Nodes, Children;
      var children := Children(card, key);
      ghost var was := State();
      entities := {};
      OfNoNode(was);
      for i := 0 to |children|
        invariant Valid()
        invariant State() == Add(was, NodesUnder(view, card, key, path, i))
        invariant entities == EntitiesOf(NodesUnder(view, card, key, path, i))
      {
        var more := WalkCard(view, children[i], path + [Key(key), At(i)]);
        AddTwice(was, NodesUnder(view, card, key, path, i), Nodes(view, children[i], path + [Key(key), At(i)]));
        OwnUnion(NodesUnder(view, card, key, path, i), Nodes(view, children[i], path + [Key(key), At(i)]));
        entities := entities + more;
      }
    }

    /** The cards of a view or a section: each is walked and listed. */
    method WalkItems(view: string, container: Json, key: string, path: Path, fallback: string)
      requires Valid()
      requires container.Obj?
      modifies this
      ensures State() == Add(old(State()), AllUnder(view, container, key, path))
      ensures cards == old(cards) + CardsUnder(view, container, key, path, fallback, |Children(container, key)|)
      ensures Valid()
    {
      hide DistinctContexts, RefSet, WarningSet, Add, EntitiesOf, Nodes, Children, CardsFor;
      var items := Children(container, key);
      ghost var was := State();
      OfNoNode(was);
      for i := 0 to |items|
        invariant Valid()
        invariant State() == Add(was, NodesUnder(view, container, key, path, i))
        invariant cards == old(cards) + CardsUnder(view, container, key, path, fallback, i)
      {
        ghost var listed := cards;
        var entities := WalkCard(view, items[i], path + [Key(key), At(i)]);
        AddTwice(was, NodesUnder(view, container, key, path, i), Nodes(view, items[i], path + [Key(key), At(i)]));
        AppendDashboardCard(items[i], entities, fallback);
        assert cards == listed + CardsFor(items[i], entities, fallback);
      }
    }

    method AppendDashboardCard(card: Json, entities: set<string>, fallback: string)
      modifies `cards
      ensures cards == old(cards) + CardsFor(card, entities, fallback)
    {
      if entities == {} || !card.Obj? {
        return;
      }
      cards := cards + [DashCard(CardType(card), CardTitle(card, fallback), entities)];
    }

    method WalkView(view: Json, index: nat)
      requires Valid()
      requires view.Obj?
      modifies this
      ensures State() == Add(old(State()), ViewNodes(view, index)) && cards == old(cards) + ViewCards(view, index)
      ensures Valid()
    {
      hide DistinctContexts, RefSet, WarningSet, Add, AllUnder, CardsUnder, SectionNodes, SectionCards, ViewTitle,
        Children, ViewNodes, ViewCards, ViewPath;
      ghost var was, listed := State(), cards;
      ViewIsSum(view, index, listed);
      var title := ViewTitle(view, index);
      WalkItems(title, view, "cards", ViewPath(index), "");
      WalkSections(view, index);
      WalkItems(title, view, "badges", ViewPath(index), "Badges");
      AddThree(was, AllUnder(title, view, "cards", ViewPath(index)), SectionNodes(view, index, |Children(view, "sections")|),
        AllUnder(title, view, "badges", ViewPath(index)));
    }

    method WalkViews(views: seq<Json>, selected: seq<nat>)
      requires Valid()
      requires forall k :: 0 <= k < |selected| ==> selected[k] < |views|
      modifies this
      ensures State() == WithWarnings(Add(old(State()), NodesOfViews(views, selected)), ViewWarnings(views, selected))
      ensures cards == old(cards) + CardsOfViews(views, selected)
      ensures Valid()
    {
      hide DistinctContexts, RefSet, WarningSet, Add, ViewNodes, ViewCards, WithWarnings;
      ghost var was, notes: set<Warning> := State(), {};
      OfNoNode(was);
      NoWarnings(was);
      for k := 0 to |selected|
        invariant Valid()
        invariant notes == ViewWarnings(views, selected[..k])
        invariant State() == WithWarnings(Add(was, NodesOfViews(views, selected[..k])), notes)
        invariant cards == old(cards) + CardsOfViews(views, selected[..k])
      {
        assert selected[..k + 1][..k] == selected[..k];
        var index := selected[k];
        ghost var nodes := NodesOfViews(views, selected[..k]);
        AddTwice(was, nodes, ViewNodes(views[index], index));
        if views[index].Obj? {
          WarningsCommute(Add(was, nodes), notes, ViewNodes(views[index], index));
          WalkView(views[index], index);
          assert notes + {} == notes;
        } else {
          Warn(ViewPath(index), ViewNotObject);
          WarningsMore(Add(was, nodes), notes, Warning(ViewPath(index), ViewNotObject));
          NoObjectNoNodes(views[index], index);
          OfNoNode(Add(was, nodes));
          notes := notes + {Warning(ViewPath(index), ViewNotObject)};
        }
      }
      assert selected[..|selected|] == selected;
    }

    method WalkSections(view: Json, index: nat)
      requires Valid()
      requires view.Obj?
      modifies this
      ensures State() == Add(old(State()), SectionNodes(view, index, |Children(view, "sections")|))
      ensures cards == old(cards) + SectionCards(view, index, |Children(view, "sections")|)
      ensures Valid()
    {
      hide DistinctContexts, RefSet, WarningSet, Add, AllUnder, CardsUnder, ViewTitle, SectionTitle, Children;
      var sections := Children(view, "sections");
      var title := ViewTitle(view, index);
      ghost var was := State();
      OfNoNode(was);
      for i := 0 to |sections|
        invariant Valid()
        invariant State() == Add(was, SectionNodes(view, index, i))
        invariant cards == old(cards) + SectionCards(view, index, i)
      {
        if sections[i].Obj? {
          AddTwice(was, SectionNodes(view, index, i), AllUnder(title, sections[i], "cards", SectionPath(index, i)));
          WalkItems(title, sections[i], "cards", SectionPath(index, i), SectionTitle(sections[i], i));
        } else {
          assert SectionNodes(view, index, i + 1) == SectionNodes(view, index, i) + {} == SectionNodes(view, index, i);
        }
      }
    }
  }

  /** What a harvest returns; its sorted lists are sets here. */
  datatype Harvest = Harvest(
    entities: set<string>, readEntities: set<string>, subscriptions: set<string>, history: set<string>, cameras: set<string>,
    references: map<string, seq<Context>>, warnings: seq<Warning>, viewTitle: Option<string>, cards: seq<DashCard>)

  function SingleTitle(views: seq<Json>, selected: seq<nat>): Option<string>
    requires forall i :: 0 <= i < |selected| ==> selected[i] < |views|
  {
    if |selected| == 1 && views[selected[0]].Obj? then Some(ViewTitle(views[selected[0]], selected[0])) else None
  }

  /** The harvest collects exactly what the tree of cards refers to. */
  method HarvestLovelaceConfig(config: Json, viewIndex: Option<int>) returns (h: Harvest)
    ensures var nodes := HarvestNodes(config, viewIndex);
      && h.readEntities == ReadsOf(nodes) && h.subscriptions == ReadsOf(nodes)
      && h.history == HistoryOf(nodes) && h.cameras == CamerasOf(nodes)
      && h.entities == ReadsOf(nodes) + HistoryOf(nodes) + CamerasOf(nodes)
      && RefSet(h.references) == RefsOf(nodes) && DistinctContexts(h.references)
      && WarningSet(h.warnings) == ConfigWarnings(config, viewIndex) + WarningsOf(nodes)
    ensures h.cards == CardsOfViews(Views(config), Selected(config, viewIndex))
    ensures h.viewTitle == SingleTitle(Views(config), Selected(config, viewIndex))
  {
    hide RefSet, DistinctContexts, WarningSet, Add, NodesOfViews, CardsOfViews, ViewWarnings, Selected, Views,
      SingleTitle, ReadsOf, HistoryOf, CamerasOf, RefsOf, WarningsOf;
    var w := new Harvester();
    var views := Views(config);
    var selected := Selected(config, viewIndex);
    assert forall k :: 0 <= k < |selected| ==> selected[k] < |views| by { SelectedInRange(config, viewIndex); }
    if config.Obj? && !Member(config, "views").List? {
      w.Warn([Key("views")], NoViews);
    }
    if viewIndex.Some? && !(0 <= viewIndex.value < |views|) {
      w.Warn([Key("views")], ViewNotFound(viewIndex.value));
    }
    ghost var was := w.State();
    w.WalkViews(views, selected);
    Collected(was, HarvestNodes(config, viewIndex), ViewWarnings(views, selected));
    h := Harvest(w.readEntities + w.history + w.cameras, w.readEntities, w.subscriptions, w.history, w.cameras,
      w.refs, w.warnings, SingleTitle(views, selected), w.cards);
    assert WarningSet(h.warnings) == w.State().warnings;
  }

  lemma {:induction false} SelectedInRange(config: Json, viewIndex: Option<int>)
    ensures var selected := Selected(config, viewIndex); forall k :: 0 <= k < |selected| ==> selected[k] < |Views(config)|
  {
  }

  function WithWarnings(t: Tally, ws: set<Warning>): Tally {
    t.(warnings := t.warnings + ws)
  }

  lemma {:induction false} NoWarnings(t: Tally)
    ensures WithWarnings(t, {}) == t
  {
  }

  lemma {:induction false} WarningsCommute(t: Tally, ws: set<Warning>, nodes: set<Node>)
    ensures Add(WithWarnings(t, ws), nodes) == WithWarnings(Add(t, nodes), ws)
  {
    hide ReadsOf, HistoryOf, CamerasOf, RefsOf, WarningsOf;
    assert t.warnings + ws + WarningsOf(nodes) == t.warnings + WarningsOf(nodes) + ws;
  }

  lemma {:induction false} WarningsMore(t: Tally, ws: set<Warning>, w: Warning)
    ensures WithWarnings(t, ws).(warnings := WithWarnings(t, ws).warnings + {w}) == WithWarnings(t, ws + {w})
  {
    assert t.warnings + ws + {w} == t.warnings + (ws + {w});
  }

  lemma {:induction false} NoObjectNoNodes(view: Json, index: nat)
    requires !view.Obj?
    ensures ViewNodes(view, index) == {} && ViewCards(view, index) == []
  {
  }

  lemma {:induction false} Collected(t: Tally, nodes: set<Node>, ws: set<Warning>)
    requires t == Tally({}, {}, {}, {}, {}, t.warnings)
    ensures WithWarnings(Add(t, nodes), ws)
      == Tally(ReadsOf(nodes), ReadsOf(nodes), HistoryOf(nodes), CamerasOf(nodes), RefsOf(nodes), t.warnings + ws + WarningsOf(nodes))
  {
    hide ReadsOf, HistoryOf, CamerasOf, RefsOf, WarningsOf;
    assert t.warnings + WarningsOf(nodes) + ws == t.warnings + ws + WarningsOf(nodes);
  }

  lemma {:induction false} ViewIsSum(view: Json, index: nat, listed: seq<DashCard>)
    requires view.Obj?
    ensures var title := ViewTitle(view, index);
      && ViewNodes(view, index)
         == AllUnder(title, view, "cards", ViewPath(index)) + SectionNodes(view, index, |Children(view, "sections")|)
            + AllUnder(title, view, "badges", ViewPath(index))
      && listed + ViewCards(view, index)
         == listed + CardsUnder(title, view, "cards", ViewPath(index), "", |Children(view, "cards")|)
            + SectionCards(view, index, |Children(view, "sections")|)
            + CardsUnder(title, view, "badges", ViewPath(index), "Badges", |Children(view, "badges")|)
  {
    hide AllUnder, CardsUnder, SectionNodes, SectionCards, ViewTitle, ViewPath, Children;
  }

  lemma {:induction false} AddThree(t: Tally, a: set<Node>, b: set<Node>, c: set<Node>)
    ensures Add(Add(Add(t, a), b), c) == Add(t, a + b + c)
    ensures EntitiesOf(a + b + c) == EntitiesOf(a) + EntitiesOf(b) + EntitiesOf(c)
  {
    hide Add, EntitiesOf;
    AddTwice(t, a, b);
    AddTwice(t, a + b, c);
    OwnUnion(a, b);
    OwnUnion(a + b, c);
  }

  lemma {:induction false} AddFour(t: Tally, a: set<Node>, b: set<Node>, c: set<Node>, d: set<Node>)
    ensures Add(Add(Add(Add(t, a), b), c), d) == Add(t, a + (b + c + d))
    ensures EntitiesOf(a + (b + c + d)) == EntitiesOf(a) + EntitiesOf(b) + EntitiesOf(c) + EntitiesOf(d)
  {
    hide Add, EntitiesOf;
    AddThree(t, a, b, c);
    AddTwice(t, a + b + c, d);
    OwnUnion(a + b + c, d);
    assert a + (b + c + d) == a + b + c + d;
  }

  ghost predicate DistinctContexts(refs: map<string, seq<Context>>) {
    forall e :: e in refs ==> forall i, j :: 0 <= i < j < |refs[e]| ==> refs[e][i] != refs[e][j]
  }

  ghost function RefSet(refs: map<string, seq<Context>>): set<(string, Context)> {
    set e, c | e in refs && c in refs[e] :: (e, c)
  }

  ghost function WarningSet(warnings: seq<Warning>): set<Warning> {
    set w | w in warnings
  }

  lemma {:induction false} WarningSnoc(warnings: seq<Warning>, w: Warning)
    ensures WarningSet(warnings + [w]) == WarningSet(warnings) + {w}
  {
    assert (warnings + [w])[|warnings|] == w;
    assert forall x :: x in warnings ==> x in warnings + [w];
  }

  lemma {:induction false} ReferenceAdded(refs: map<string, seq<Context>>, e: string, context: Context)
    ensures RefSet(refs[e := (if e in refs then refs[e] else []) + [context]]) == RefSet(refs) + {(e, context)}
  {
    var contexts := if e in refs then refs[e] else [];
    var after := refs[e := contexts + [context]];
    forall x, c
      ensures (x, c) in RefSet(after) <==> (x, c) in RefSet(refs) + {(e, context)}
    {
      assert (x, c) in RefSet(after) <==> x in after && c in after[x];
      assert (x, c) in RefSet(refs) <==> x in refs && c in refs[x];
      assert c in contexts + [context] <==> c in contexts || c == context;
    }
  }

  function WithReads(t: Tally, es: set<string>, c: Context): Tally {
    t.(readEntities := t.readEntities + es, subscriptions := t.subscriptions + es, refs := t.refs + Pairs(es, c))
  }

  function WithCameras(t: Tally, es: set<string>, c: Context): Tally {
    t.(cameras := t.cameras + es, refs := t.refs + Pairs(es, c))
  }

  lemma {:induction false} WithNone(t: Tally, c: Context)
    ensures WithReads(t, {}, c) == t && WithCameras(t, {}, c) == t
  {
    assert Pairs({}, c) == {};
  }

  lemma {:induction false} WithOneMore(t: Tally, es: set<string>, e: string, c: Context)
    ensures var s := WithReads(t, es, c);
      WithReads(t, es + {e}, c) == s.(readEntities := s.readEntities + {e}, subscriptions := s.subscriptions + {e}, refs := s.refs + {(e, c)})
    ensures var s := WithCameras(t, es, c);
      WithCameras(t, es + {e}, c) == s.(cameras := s.cameras + {e}, refs := s.refs + {(e, c)})
  {
    PairsMore(es, e, c);
  }

  lemma {:induction false} CamerasMore(es: set<string>, e: string)
    ensures CamerasAmong(es + {e}) == if IsCamera(e) then CamerasAmong(es) + {e} else CamerasAmong(es)
  {
    hide IsCamera;
  }

  lemma {:induction false} CamerasOfNone()
    ensures CamerasAmong({}) == {}
  {
  }

  lemma {:induction false} PairsMore(es: set<string>, e: string, c: Context)
    ensures Pairs(es + {e}, c) == Pairs(es, c) + {(e, c)}
  {
  }

  lemma {:induction false} PairsOfUnion(a: set<string>, b: set<string>, c: Context)
    ensures Pairs(a + b, c) == Pairs(a, c) + Pairs(b, c)
  {
  }

  lemma {:induction false} OwnNothing(t: Tally, n: Node)
    requires !n.card.Obj?
    ensures Add(t, {n}) == t.(warnings := t.warnings + {Warning(n.path, CardNotObject)}) && OwnRefs(n.card) == {}
  {
    OfOneNode(n);
  }
}
