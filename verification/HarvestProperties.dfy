/** What the harvest is for. */
module HarvestProperties {
  import opened Options
  import Policy
  import opened HarvestSpec
  import opened Harvesting

  // ----- The tree by positions -----

  /** Steps from a card to a nested one: the key and the position under it. */
  type Route = seq<(string, nat)>

  predicate IsStep(card: Json, step: (string, nat)) {
    card.Obj? && step.0 in ["cards", "elements", "card"] && step.1 < |Children(card, step.0)|
  }

  /** The card that the steps lead to, if they lead anywhere. */
  function CardAt(card: Json, route: Route): Option<Json>
    decreases |route|
  {
    if route == [] then Some(card)
    else if IsStep(card, route[0]) then CardAt(Children(card, route[0].0)[route[0].1], route[1..])
    else None
  }

  function PathOf(path: Path, route: Route): Path
    decreases |route|
  {
    if route == [] then path else PathOf(path + [Key(route[0].0), At(route[0].1)], route[1..])
  }

  lemma {:induction false} UnderHas(view: string, card: Json, key: string, path: Path, n: nat, i: nat, x: Node)
    requires card.Obj? && i < n <= |Children(card, key)| && x in Nodes(view, Children(card, key)[i], path + [Key(key), At(i)])
    ensures x in NodesUnder(view, card, key, path, n)
    decreases n
  {
    hide Nodes;
    if i < n - 1 {
      UnderHas(view, card, key, path, n - 1, i, x);
    }
  }

  lemma {:induction false} UnderFrom(view: string, card: Json, key: string, path: Path, n: nat, x: Node) returns (i: nat)
    requires card.Obj? && n <= |Children(card, key)| && x in NodesUnder(view, card, key, path, n)
    ensures i < n && x in Nodes(view, Children(card, key)[i], path + [Key(key), At(i)])
    decreases n
  {
    hide Nodes;
    if x in Nodes(view, Children(card, key)[n - 1], path + [Key(key), At(n - 1)]) {
      i := n - 1;
    } else {
      i := UnderFrom(view, card, key, path, n - 1, x);
    }
  }

  lemma {:induction false} RouteLeadsToNode(view: string, card: Json, path: Path, route: Route)
    requires CardAt(card, route).Some?
    ensures Node(view, PathOf(path, route), CardAt(card, route).value) in Nodes(view, card, path)
    decreases |route|
  {
    if route != [] {
      var (key, i) := route[0];
      RouteLeadsToNode(view, Children(card, key)[i], path + [Key(key), At(i)], route[1..]);
      UnderHas(view, card, key, path, |Children(card, key)|, i, Node(view, PathOf(path, route), CardAt(card, route).value));
    }
  }

  lemma {:induction false} NodeHasRoute(view: string, card: Json, path: Path, x: Node) returns (route: Route)
    requires x in Nodes(view, card, path)
    ensures CardAt(card, route) == Some(x.card) && x.path == PathOf(path, route) && x.view == view
    decreases card
  {
    if x == Node(view, path, card) {
      route := [];
    } else {
      hide NodesUnder, Children;
      var key := if x in AllUnder(view, card, "cards", path) then "cards"
        else if x in AllUnder(view, card, "elements", path) then "elements" else "card";
      var i := UnderFrom(view, card, key, path, |Children(card, key)|, x);
      ChildIsSmaller(card, key, i);
      var rest := NodeHasRoute(view, Children(card, key)[i], path + [Key(key), At(i)], x);
      route := [(key, i)] + rest;
      assert route[1..] == rest;
      assert key == ["cards", "elements", "card"][0] || key == ["cards", "elements", "card"][1] || key == ["cards", "elements", "card"][2];
    }
  }

  lemma {:induction false} ChildIsSmaller(card: Json, key: string, i: nat)
    requires card.Obj? && i < |Children(card, key)|
    ensures Children(card, key)[i] < card
  {
  }

  /** The walk of a card reads an entity exactly when some card of its tree refers to it. */
  lemma {:induction false} ReadsAreReferences(view: string, card: Json, path: Path, e: string)
    ensures e in ReadsOf(Nodes(view, card, path)) <==> exists route :: CardAt(card, route).Some? && e in NamedRefs(CardAt(card, route).value)
  {
    hide Nodes, NamedRefs;
    if e in ReadsOf(Nodes(view, card, path)) {
      var n :| n in Nodes(view, card, path) && e in NamedRefs(n.card);
      var route := NodeHasRoute(view, card, path, n);
      assert CardAt(card, route).Some?;
    }
    if route :| CardAt(card, route).Some? && e in NamedRefs(CardAt(card, route).value) {
      RouteLeadsToNode(view, card, path, route);
      assert Node(view, PathOf(path, route), CardAt(card, route).value) in Nodes(view, card, path);
    }
  }

  // ----- All views and each view -----

  lemma {:induction false} NodesOfViewsAre(views: seq<Json>, selected: seq<nat>, x: Node)
    requires forall i :: 0 <= i < |selected| ==> selected[i] < |views|
    ensures x in NodesOfViews(views, selected) <==> exists i :: 0 <= i < |selected| && x in ViewNodes(views[selected[i]], selected[i])
    decreases |selected|
  {
    hide ViewNodes;
    if selected != [] {
      var last := |selected| - 1;
      NodesOfViewsAre(views, selected[..last], x);
      if x in NodesOfViews(views, selected[..last]) {
        var i :| 0 <= i < last && x in ViewNodes(views[selected[..last][i]], selected[..last][i]);
        assert x in ViewNodes(views[selected[i]], selected[i]);
      }
      if i :| 0 <= i < |selected| && x in ViewNodes(views[selected[i]], selected[i]) {
        assert i < last ==> selected[..last][i] == selected[i];
      }
    }
  }

  /** Harvesting all views is the union of harvesting each: the same cards in the same places. */
  lemma {:induction false} AllViewsAreUnion(config: Json, x: Node)
    ensures x in HarvestNodes(config, None) <==> exists i: nat :: i < |Views(config)| && x in HarvestNodes(config, Some(i))
  {
    hide ViewNodes, Views, NodesOfViews;
    var views := Views(config);
    var all := Selected(config, None);
    NodesOfViewsAre(views, all, x);
    forall i: nat | i < |views|
      ensures x in HarvestNodes(config, Some(i)) <==> x in ViewNodes(views[i], i)
    {
      assert Selected(config, Some(i)) == [i];
      NodesOfViewsAre(views, [i], x);
      assert [i][0] == i;
    }
    assert forall i :: 0 <= i < |views| ==> all[i] == i;
    if x in HarvestNodes(config, None) {
      var i :| 0 <= i < |all| && x in ViewNodes(views[all[i]], all[i]);
      assert x in HarvestNodes(config, Some(i));
    }
    if i: nat :| i < |views| && x in HarvestNodes(config, Some(i)) {
      assert x in ViewNodes(views[all[i]], all[i]);
    }
  }

  /** ... so that every set of the harvest is the union over the views. */
  lemma {:induction false} SetsAreUnions(config: Json, e: string)
    ensures e in ReadsOf(HarvestNodes(config, None)) <==> exists i: nat :: i < |Views(config)| && e in ReadsOf(HarvestNodes(config, Some(i)))
    ensures e in HistoryOf(HarvestNodes(config, None)) <==> exists i: nat :: i < |Views(config)| && e in HistoryOf(HarvestNodes(config, Some(i)))
    ensures e in CamerasOf(HarvestNodes(config, None)) <==> exists i: nat :: i < |Views(config)| && e in CamerasOf(HarvestNodes(config, Some(i)))
  {
    hide HarvestNodes, Views, NamedRefs, CameraRefs, IsHistoryCard;
    forall x
      ensures x in HarvestNodes(config, None) <==> exists i: nat :: i < |Views(config)| && x in HarvestNodes(config, Some(i))
    {
      AllViewsAreUnion(config, x);
    }
  }

  /** ... and so are the references. */
  lemma {:induction false} ReferencesAreUnion(config: Json, r: (string, Context))
    ensures r in RefsOf(HarvestNodes(config, None)) <==> exists i: nat :: i < |Views(config)| && r in RefsOf(HarvestNodes(config, Some(i)))
  {
    hide HarvestNodes, Views, OwnRefs, CardType;
    forall x
      ensures x in HarvestNodes(config, None) <==> exists i: nat :: i < |Views(config)| && x in HarvestNodes(config, Some(i))
    {
      AllViewsAreUnion(config, x);
    }
  }

  /** All warnings of a harvest. */
  function AllWarnings(config: Json, viewIndex: Option<int>): set<Warning> {
    ConfigWarnings(config, viewIndex) + WarningsOf(HarvestNodes(config, viewIndex))
  }

  predicate HasNoViewList(config: Json) {
    config.Obj? && !Member(config, "views").List?
  }

  lemma {:induction false} ViewWarningsAre(views: seq<Json>, selected: seq<nat>, w: Warning)
    requires forall i :: 0 <= i < |selected| ==> selected[i] < |views|
    ensures w in ViewWarnings(views, selected)
      <==> exists i :: 0 <= i < |selected| && !views[selected[i]].Obj? && w == Warning(ViewPath(selected[i]), ViewNotObject)
    decreases |selected|
  {
    if selected != [] {
      var last := |selected| - 1;
      ViewWarningsAre(views, selected[..last], w);
      assert forall i :: 0 <= i < last ==> selected[..last][i] == selected[i];
    }
  }

  lemma {:induction false} ConfigWarningsAreUnion(config: Json, w: Warning)
    ensures w in ConfigWarnings(config, None)
      <==> ((HasNoViewList(config) && w == Warning([Key("views")], NoViews))
            || exists i: nat :: i < |Views(config)| && w in ConfigWarnings(config, Some(i)))
  {
    hide ViewWarnings, ViewPath;
    var views, all := Views(config), Selected(config, None);
    ViewWarningsAre(views, all, w);
    forall i: nat | i < |views|
      ensures w in ConfigWarnings(config, Some(i)) <==> !views[i].Obj? && w == Warning(ViewPath(i), ViewNotObject)
    {
      assert Selected(config, Some(i)) == [i];
      ViewWarningsAre(views, [i], w);
      assert [i][0] == i;
    }
    assert forall i :: 0 <= i < |views| ==> all[i] == i;
    if w in ViewWarnings(views, all) {
      var i: nat :| i < |all| && !views[all[i]].Obj? && w == Warning(ViewPath(all[i]), ViewNotObject);
      assert w in ConfigWarnings(config, Some(i));
    }
    if i: nat :| i < |views| && w in ConfigWarnings(config, Some(i)) {
      assert !views[all[i]].Obj? && w == Warning(ViewPath(all[i]), ViewNotObject);
    }
  }

  /** The warnings are the union too, but for the one about a config without a list of views. */
  lemma {:induction false} WarningsAreUnion(config: Json, w: Warning)
    ensures w in AllWarnings(config, None)
      <==> ((HasNoViewList(config) && w == Warning([Key("views")], NoViews))
            || exists i: nat :: i < |Views(config)| && w in AllWarnings(config, Some(i)))
  {
    hide HarvestNodes, Views, OwnWarnings, ConfigWarnings, HasNoViewList;
    ConfigWarningsAreUnion(config, w);
    forall x
      ensures x in HarvestNodes(config, None) <==> exists i: nat :: i < |Views(config)| && x in HarvestNodes(config, Some(i))
    {
      AllViewsAreUnion(config, x);
    }
    assert w in WarningsOf(HarvestNodes(config, None)) <==> exists n :: n in HarvestNodes(config, None) && w in OwnWarnings(n.card, n.path);
  }

  /** The cards listed by harvesting each of the first views, one after the other. */
  function CardsOfEach(config: Json, n: nat): seq<DashCard>
    requires n <= |Views(config)|
  {
    if n == 0 then [] else CardsOfEach(config, n - 1) + CardsOfViews(Views(config), Selected(config, Some(n - 1)))
  }

  lemma {:induction false} OneView(views: seq<Json>, i: nat)
    requires i < |views|
    ensures CardsOfViews(views, [i]) == ViewCards(views[i], i)
  {
    hide ViewCards;
    assert [i][..0] == [] && [] + ViewCards(views[i], i) == ViewCards(views[i], i);
  }

  lemma {:induction false} FirstCards(config: Json, n: nat)
    requires n <= |Views(config)|
    ensures CardsOfViews(Views(config), Selected(config, None)[..n]) == CardsOfEach(config, n)
  {
    hide Views, ViewCards;
    if n > 0 {
      FirstCards(config, n - 1);
      var all := Selected(config, None);
      assert all[..n][..n - 1] == all[..n - 1] && all[..n][n - 1] == n - 1;
      OneView(Views(config), n - 1);
      assert Selected(config, Some(n - 1)) == [n - 1];
    }
  }

  /** The listed cards of all views are those of each view, in the order of the views. */
  lemma {:induction false} CardsAreConcatenated(config: Json)
    ensures CardsOfViews(Views(config), Selected(config, None)) == CardsOfEach(config, |Views(config)|)
  {
    FirstCards(config, |Views(config)|);
    assert Selected(config, None)[..|Views(config)|] == Selected(config, None);
  }

  // ----- One harvest -----

  /** Subscriptions are the reads, history is among them, and the camera scope is for cameras only. */
  lemma {:induction false} ScopesFit(nodes: set<Node>)
    ensures HistoryOf(nodes) <= ReadsOf(nodes)
    ensures forall e :: e in CamerasOf(nodes) ==> Policy.DomainOf(e) == "camera"
    ensures EntitiesOf(nodes) == ReadsOf(nodes) + HistoryOf(nodes) + CamerasOf(nodes)
  {
    hide NamedRefs, CameraRefs, IsHistoryCard, Policy.DomainOf;
    forall n, e | n in nodes && e in CameraRefs(n.card)
      ensures Policy.DomainOf(e) == "camera"
    {
      CameraRefsAreCameras(n.card, e);
    }
    forall e
      ensures e in EntitiesOf(nodes) <==> e in ReadsOf(nodes) + CamerasOf(nodes)
    {
      assert e in EntitiesOf(nodes) <==> exists n :: n in nodes && e in OwnRefs(n.card);
    }
  }

  lemma {:induction false} CameraRefsAreCameras(card: Json, e: string)
    requires e in CameraRefs(card)
    ensures Policy.DomainOf(e) == "camera"
  {
  }

  lemma {:induction false} RefsNeedObjects(card: Json, e: string)
    requires e in OwnRefs(card)
    ensures card.Obj?
  {
  }

  /** Exactly the harvested entities have a reference. */
  lemma {:induction false} HarvestedHaveReferences(config: Json, viewIndex: Option<int>, e: string)
    ensures e in EntitiesOf(HarvestNodes(config, viewIndex)) <==> exists c :: (e, c) in RefsOf(HarvestNodes(config, viewIndex))
  {
    hide HarvestNodes, OwnRefs, CardType;
    var nodes := HarvestNodes(config, viewIndex);
    if e in EntitiesOf(nodes) {
      var n :| n in nodes && e in OwnRefs(n.card);
      RefsNeedObjects(n.card, e);
      assert (e, ContextOf(n)) in RefsOf(nodes);
    }
  }

  // ----- The export -----

  datatype Manifest = Manifest(
    readEntities: set<string>, subscriptions: set<string>, history: set<string>, cameras: set<string>, cards: seq<DashCard>)

  /** Everything available, or the given entities as far as they are available. */
  function Selection(available: set<string>, selected: Option<seq<string>>): set<string> {
    match selected
    case None => available
    case Some(es) => set e | e in es && e in available
  }

  function DashboardCards(cards: seq<DashCard>, selected: set<string>): seq<DashCard>
    decreases |cards|
  {
    if cards == [] then []
    else
      var card := cards[0];
      (if card.entities * selected != {} then [card.(entities := card.entities * selected)] else []) + DashboardCards(cards[1..], selected)
  }

  function BuildManifest(h: Harvest, selected: Option<seq<string>>): Manifest {
    var chosen := Selection(h.entities, selected);
    Manifest(h.readEntities * chosen, h.subscriptions * chosen, h.history * chosen, h.cameras * chosen, DashboardCards(h.cards, chosen))
  }

  lemma {:induction false} DashboardCardsWithin(cards: seq<DashCard>, selected: set<string>)
    ensures forall i :: 0 <= i < |DashboardCards(cards, selected)| ==>
      DashboardCards(cards, selected)[i].entities <= selected && DashboardCards(cards, selected)[i].entities != {}
    ensures forall card ::
      (card in cards && card.entities * selected != {} ==> card.(entities := card.entities * selected) in DashboardCards(cards, selected))
    decreases |cards|
  {
    if cards != [] {
      DashboardCardsWithin(cards[1..], selected);
      var first := if cards[0].entities * selected != {} then [cards[0].(entities := cards[0].entities * selected)] else [];
      assert DashboardCards(cards, selected) == first + DashboardCards(cards[1..], selected);
      forall card | card in cards && card.entities * selected != {}
        ensures card.(entities := card.entities * selected) in DashboardCards(cards, selected)
      {
        if card == cards[0] {
          assert first[0] == card.(entities := card.entities * selected);
        } else {
          assert card in cards[1..];
        }
      }
    }
  }

  /** No scope and no card of an export lists an entity outside the selection, the selection lists none that was not
      harvested, and the scopes fit each other as those of the harvest do. */
  method ExportDashboard(config: Json, viewIndex: Option<int>, selected: Option<seq<string>>) returns (h: Harvest, m: Manifest)
    ensures m == BuildManifest(h, selected)
    ensures var chosen := Selection(h.entities, selected);
      && chosen <= EntitiesOf(HarvestNodes(config, viewIndex))
      && (selected.None? ==> chosen == EntitiesOf(HarvestNodes(config, viewIndex)))
      && m.readEntities <= chosen && m.cameras <= chosen && m.history <= m.readEntities && m.subscriptions == m.readEntities
      && (forall e :: e in m.cameras ==> Policy.DomainOf(e) == "camera")
      && (forall i :: 0 <= i < |m.cards| ==> m.cards[i].entities <= chosen && m.cards[i].entities != {})
    ensures forall e :: e in m.readEntities + m.cameras ==> e in h.references && h.references[e] != []
  {
    hide HarvestNodes, ReadsOf, HistoryOf, CamerasOf, EntitiesOf, RefsOf, ConfigWarnings, WarningsOf, Views, Selected, CardsOfViews, SingleTitle,
      DashboardCards, Policy.DomainOf;
    h := HarvestLovelaceConfig(config, viewIndex);
    m := BuildManifest(h, selected);
    var nodes := HarvestNodes(config, viewIndex);
    ScopesFit(nodes);
    DashboardCardsWithin(h.cards, Selection(h.entities, selected));
    forall e | e in m.readEntities + m.cameras
      ensures e in h.references && h.references[e] != []
    {
      HarvestedHaveReferences(config, viewIndex, e);
      var c :| (e, c) in RefsOf(nodes);
      assert (e, c) in RefSet(h.references);
    }
  }
}
