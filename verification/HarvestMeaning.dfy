/** What a harvest collects from a dashboard config, by the positions of its cards. */
module HarvestMeaning {
  import opened Options
  import Policy
  import PM = PolicyMeaning
  import opened HarvestSpec
  import opened HarvestPositions
  import opened HarvestProperties
  import opened Harvesting

  // ----- Texts -----

  /** A value as text if it is not empty, zero or false, and otherwise another text. */
  function Shown(v: Json, otherwise: string): string {
    match v
    case Null => otherwise
    case Str(s) => if s == "" then otherwise else s
    case Scalar(t, truth) => if truth then t else otherwise
    case List(items) => if items == [] then otherwise else "[]"
    case Obj(fields) => if fields == [] then otherwise else "{}"
  }

  function Numeral(n: nat): string {
    if n < 10 then ["0123456789"[n]] else Numeral(n / 10) + ["0123456789"[n % 10]]
  }

  lemma {:induction false} ShownIs(v: Json, otherwise: string)
    ensures TextOr(v, otherwise) == Shown(v, otherwise)
  {
  }

  lemma {:induction false} NumeralIs(n: nat)
    ensures Decimal(n) == Numeral(n)
  {
    var d := (n % 10) as char + '0';
    assert d == "0123456789"[n % 10] by { DigitIs(n % 10); }
    if n < 10 {
      assert [] + [d] == [d];
    } else {
      NumeralIs(n / 10);
    }
  }

  lemma {:induction false} DigitIs(d: nat)
    requires d < 10
    ensures d as char + '0' == "0123456789"[d]
  {
  }

  // ----- The cards of a view -----

  /** A card at the top of a view: where it stands, and the title it falls back on. */
  datatype Top = Top(card: Json, path: Path, fallback: string)

  function TopsUnder(container: Json, key: string, path: Path, fallback: string): seq<Top>
    requires container.Obj?
  {
    var cs := Children(container, key);
    seq(|cs|, i requires 0 <= i < |cs| => Top(cs[i], path + [Key(key), At(i)], fallback))
  }

  /** The cards of the first `n` sections. */
  function SectionTops(view: Json, index: nat, n: nat): seq<Top>
    requires view.Obj? && n <= |Children(view, "sections")|
  {
    if n == 0 then []
    else
      var section := Children(view, "sections")[n - 1];
      SectionTops(view, index, n - 1)
      + (if section.Obj?
         then TopsUnder(section, "cards", [Key("views"), At(index), Key("sections"), At(n - 1)],
                        Shown(Member(section, "title"), "Section " + Numeral(n)))
         else [])
  }

  /** A view's cards, then those of its sections, then its badges. */
  function Tops(view: Json, index: nat): seq<Top>
    requires view.Obj?
  {
    TopsUnder(view, "cards", [Key("views"), At(index)], "") + SectionTops(view, index, |Children(view, "sections")|)
    + TopsUnder(view, "badges", [Key("views"), At(index)], "Badges")
  }

  function TitleOf(view: Json, index: nat): string
    requires view.Obj?
  {
    Shown(Member(view, "title"), Shown(Member(view, "path"), "View " + Numeral(index + 1)))
  }

  lemma {:induction false} TitleIs(view: Json, index: nat)
    requires view.Obj?
    ensures ViewTitle(view, index) == TitleOf(view, index)
  {
    ShownIs(Member(view, "title"), ViewTitle(view, index));
    ShownIs(Member(view, "path"), "View " + Decimal(index + 1));
    NumeralIs(index + 1);
  }

  /** The nodes of the trees of some tops. */
  function NodesOfTops(view: string, tops: seq<Top>): set<Node>
    decreases |tops|
  {
    if tops == [] then {}
    else
      var top := tops[|tops| - 1];
      NodesOfTops(view, tops[..|tops| - 1]) + Nodes(view, top.card, top.path)
  }

  lemma {:induction false} NodesOfMore(view: string, a: seq<Top>, b: seq<Top>)
    ensures NodesOfTops(view, a + b) == NodesOfTops(view, a) + NodesOfTops(view, b)
    decreases |b|
  {
    hide Nodes;
    if b == [] {
      assert a + b == a;
    } else {
      NodesOfMore(view, a, b[..|b| - 1]);
      assert (a + b)[..|a + b| - 1] == a + b[..|b| - 1];
    }
  }

  lemma {:induction false} UnderIs(view: string, container: Json, key: string, path: Path, fallback: string, n: nat)
    requires container.Obj? && n <= |Children(container, key)|
    ensures NodesUnder(view, container, key, path, n) == NodesOfTops(view, TopsUnder(container, key, path, fallback)[..n])
    decreases n
  {
    hide Nodes;
    if n > 0 {
      var tops := TopsUnder(container, key, path, fallback);
      UnderIs(view, container, key, path, fallback, n - 1);
      assert tops[..n][..n - 1] == tops[..n - 1];
    }
  }

  lemma {:induction false} AllUnderIs(view: string, container: Json, key: string, path: Path, fallback: string)
    requires container.Obj?
    ensures AllUnder(view, container, key, path) == NodesOfTops(view, TopsUnder(container, key, path, fallback))
  {
    hide NodesUnder, NodesOfTops;
    var tops := TopsUnder(container, key, path, fallback);
    UnderIs(view, container, key, path, fallback, |tops|);
    assert tops[..|tops|] == tops;
  }

  lemma {:induction false} SectionsAre(view: Json, index: nat, n: nat)
    requires view.Obj? && n <= |Children(view, "sections")|
    ensures SectionNodes(view, index, n) == NodesOfTops(ViewTitle(view, index), SectionTops(view, index, n))
    decreases n
  {
    hide NodesOfTops, AllUnder, ViewTitle, TopsUnder, Shown, Numeral;
    var title := ViewTitle(view, index);
    if n == 0 {
      NoTops(title);
    } else {
      var section := Children(view, "sections")[n - 1];
      SectionsAre(view, index, n - 1);
      if section.Obj? {
        var fallback := Shown(Member(section, "title"), "Section " + Numeral(n));
        assert SectionPath(index, n - 1) == [Key("views"), At(index), Key("sections"), At(n - 1)];
        AllUnderIs(title, section, "cards", SectionPath(index, n - 1), fallback);
        NodesOfMore(title, SectionTops(view, index, n - 1), TopsUnder(section, "cards", SectionPath(index, n - 1), fallback));
      } else {
        assert SectionTops(view, index, n) == SectionTops(view, index, n - 1) + [] == SectionTops(view, index, n - 1);
      }
    }
  }

  lemma {:induction false} NoTops(view: string)
    ensures NodesOfTops(view, []) == {}
  {
  }

  lemma {:induction false} ViewIs(view: Json, index: nat)
    requires view.Obj?
    ensures ViewNodes(view, index) == NodesOfTops(TitleOf(view, index), Tops(view, index))
  {
    hide NodesOfTops, AllUnder, ViewTitle, TopsUnder, SectionNodes, SectionTops, TitleOf;
    var title := ViewTitle(view, index);
    var path := [Key("views"), At(index)];
    assert ViewPath(index) == path;
    var n := |Children(view, "sections")|;
    TitleIs(view, index);
    AllUnderIs(title, view, "cards", path, "");
    AllUnderIs(title, view, "badges", path, "Badges");
    SectionsAre(view, index, n);
    NodesOfMore(title, TopsUnder(view, "cards", path, ""), SectionTops(view, index, n));
    NodesOfMore(title, TopsUnder(view, "cards", path, "") + SectionTops(view, index, n), TopsUnder(view, "badges", path, "Badges"));
  }

  // ----- Which cards are visited -----

  ghost predicate IsInTree(view: string, top: Top, x: Node) {
    exists route :: CardAt(top.card, route) == Some(x.card) && x.path == PathOf(top.path, route) && x.view == view
  }

  lemma {:induction false} TreeIs(view: string, top: Top, x: Node)
    ensures x in Nodes(view, top.card, top.path) <==> IsInTree(view, top, x)
  {
    hide Nodes;
    if x in Nodes(view, top.card, top.path) {
      var route := NodeHasRoute(view, top.card, top.path, x);
    }
    if IsInTree(view, top, x) {
      var route :| CardAt(top.card, route) == Some(x.card) && x.path == PathOf(top.path, route) && x.view == view;
      RouteLeadsToNode(view, top.card, top.path, route);
    }
  }

  lemma {:induction false} InSomeTree(view: string, tops: seq<Top>, x: Node)
    ensures x in NodesOfTops(view, tops) <==> exists t :: 0 <= t < |tops| && IsInTree(view, tops[t], x)
    decreases |tops|
  {
    hide IsInTree, Nodes;
    if tops != [] {
      InSomeTree(view, tops[..|tops| - 1], x);
      TreeIs(view, tops[|tops| - 1], x);
    }
  }

  /** The view at the position is a mapping and is to be harvested. */
  predicate IsHarvested(config: Json, viewIndex: Option<int>, i: int) {
    && config.Obj? && Member(config, "views").List? && 0 <= i < |Member(config, "views").items|
    && (viewIndex.None? || viewIndex.value == i) && Member(config, "views").items[i].Obj?
  }

  /** The card stands in the tree of a card at the top of a harvested view. */
  ghost predicate Visits(config: Json, viewIndex: Option<int>, x: Node) {
    exists i, t :: IsHarvested(config, viewIndex, i)
      && (var view := Member(config, "views").items[i]; 0 <= t < |Tops(view, i)| && IsInTree(TitleOf(view, i), Tops(view, i)[t], x))
  }

  /** A harvest visits exactly the cards, section cards and badges of its views, and the cards nested in them under "card", "cards"
      and "elements", each under its own path and the title of its view. */
  lemma {:induction false} VisitsExactly(config: Json, viewIndex: Option<int>, x: Node)
    ensures x in HarvestNodes(config, viewIndex) <==> Visits(config, viewIndex, x)
  {
    hide NodesOfViews, ViewNodes, IsInTree, Tops, TitleOf;
    var views, selected := Views(config), Selected(config, viewIndex);
    NodesOfViewsAre(views, selected, x);
    forall i | IsHarvested(config, viewIndex, i)
      ensures x in ViewNodes(views[i], i)
        <==> exists t :: 0 <= t < |Tops(views[i], i)| && IsInTree(TitleOf(views[i], i), Tops(views[i], i)[t], x)
    {
      ViewIs(views[i], i);
      InSomeTree(TitleOf(views[i], i), Tops(views[i], i), x);
    }
    if x in HarvestNodes(config, viewIndex) {
      var k :| 0 <= k < |selected| && x in ViewNodes(views[selected[k]], selected[k]);
      OnlyMappings(views[selected[k]], selected[k], x);
      assert IsHarvested(config, viewIndex, selected[k]);
    }
    if Visits(config, viewIndex, x) {
      var i, t :| IsHarvested(config, viewIndex, i)
        && (var view := Member(config, "views").items[i]; 0 <= t < |Tops(view, i)| && IsInTree(TitleOf(view, i), Tops(view, i)[t], x));
      assert x in ViewNodes(views[i], i);
      assert selected[if viewIndex.None? then i else 0] == i;
    }
  }

  lemma {:induction false} OnlyMappings(view: Json, i: nat, x: Node)
    requires x in ViewNodes(view, i)
    ensures view.Obj?
  {
  }

  // ----- What is collected -----

  /** The card is a camera card, and the entity is a camera that it names or takes its image from. */
  ghost predicate IsCameraOf(e: string, card: Json) {
    && card.Obj? && (HasType(card, "camera") || HasType(card, "picture-glance") || HasType(card, "picture-entity"))
    && PM.InDomain(e, "camera")
    && (NamedIn(e, card) || (IsEntityId(e) && StandsIn(e, Member(card, "camera_image"))))
  }

  lemma {:induction false} CameraRefsAre(card: Json, e: string)
    ensures e in CameraRefs(card) <==> IsCameraOf(e, card)
  {
    hide NamedIn, StandsIn, NamedRefs, ValueRefs, HasType, CardType, IsEntityId;
    if card.Obj? {
      TypeExactly(card, "camera");
      TypeExactly(card, "picture-glance");
      TypeExactly(card, "picture-entity");
      NamedByPosition(card, e);
      RefsStandIn(e, Member(card, "camera_image"));
      PM.DomainIs(e, "camera");
    }
  }

  /** What is read and subscribed to, whose history is shown, which cameras: by the cards that are visited. */
  lemma {:induction false} CollectsExactly(config: Json, viewIndex: Option<int>, e: string)
    ensures var nodes := HarvestNodes(config, viewIndex);
      && (e in ReadsOf(nodes) <==> exists x :: Visits(config, viewIndex, x) && NamedIn(e, x.card))
      && (e in HistoryOf(nodes)
          <==> exists x :: Visits(config, viewIndex, x) && NamedIn(e, x.card) && x.card.Obj? && HasType(x.card, "history-graph"))
      && (e in CamerasOf(nodes) <==> exists x :: Visits(config, viewIndex, x) && IsCameraOf(e, x.card))
  {
    hide HarvestNodes, Visits, NamedIn, IsCameraOf, NamedRefs, CameraRefs, HasType, CardType;
    var nodes := HarvestNodes(config, viewIndex);
    forall x
      ensures x in nodes <==> Visits(config, viewIndex, x)
      ensures e in NamedRefs(x.card) <==> NamedIn(e, x.card)
      ensures e in CameraRefs(x.card) <==> IsCameraOf(e, x.card)
      ensures IsHistoryCard(x.card) <==> x.card.Obj? && HasType(x.card, "history-graph")
    {
      VisitsExactly(config, viewIndex, x);
      NamedByPosition(x.card, e);
      CameraRefsAre(x.card, e);
      if x.card.Obj? {
        TypeExactly(x.card, "history-graph");
      }
    }
    assert e in ReadsOf(nodes) <==> exists x :: x in nodes && e in NamedRefs(x.card);
    assert e in HistoryOf(nodes) <==> exists x :: x in nodes && IsHistoryCard(x.card) && e in NamedRefs(x.card);
    assert e in CamerasOf(nodes) <==> exists x :: x in nodes && e in CameraRefs(x.card);
  }

  /** Each entity is referred to from the cards that name it or show it as a camera, with the view's title, the card's type and
      its path. */
  lemma {:induction false} RefersExactly(config: Json, viewIndex: Option<int>, e: string, c: Context)
    ensures (e, c) in RefsOf(HarvestNodes(config, viewIndex)) <==>
      exists x :: Visits(config, viewIndex, x) && x.card.Obj? && (NamedIn(e, x.card) || IsCameraOf(e, x.card))
        && c == Context(x.view, Shown(Member(x.card, "type"), "unknown"), x.path)
  {
    hide HarvestNodes, Visits, NamedIn, IsCameraOf, NamedRefs, CameraRefs, Shown;
    var nodes := HarvestNodes(config, viewIndex);
    forall x
      ensures x in nodes <==> Visits(config, viewIndex, x)
      ensures e in OwnRefs(x.card) <==> NamedIn(e, x.card) || IsCameraOf(e, x.card)
      ensures x.card.Obj? ==> ContextOf(x) == Context(x.view, Shown(Member(x.card, "type"), "unknown"), x.path)
    {
      VisitsExactly(config, viewIndex, x);
      NamedByPosition(x.card, e);
      CameraRefsAre(x.card, e);
      if x.card.Obj? {
        ShownIs(Member(x.card, "type"), "unknown");
      }
    }
    hide OwnRefs, ContextOf;
    assert (e, c) in RefsOf(nodes) <==> exists x :: x in nodes && x.card.Obj? && e in OwnRefs(x.card) && c == ContextOf(x);
  }

  // ----- The listed cards -----

  /** A type as a title: spaces for hyphens, the first letter in upper case. */
  function TypeTitle(t: string): string {
    seq(|t|, i requires 0 <= i < |t| => if t[i] == '-' then ' ' else if i == 0 && 'a' <= t[i] <= 'z' then t[i] - 'a' + 'A' else t[i])
  }

  function ListTitle(card: Json, fallback: string): string
    requires card.Obj?
  {
    Shown(Member(card, "title"), Shown(Member(card, "name"), if fallback != "" then fallback else TypeTitle(Shown(Member(card, "type"), "unknown"))))
  }

  /** The cards with their types, titles and all entities of their trees; those that are no mappings or have no entities are left
      out. */
  function Listing(view: string, tops: seq<Top>): seq<DashCard>
    decreases |tops|
  {
    if tops == [] then []
    else
      var top := tops[|tops| - 1];
      var es := EntitiesOf(Nodes(view, top.card, top.path));
      Listing(view, tops[..|tops| - 1])
      + (if top.card.Obj? && es != {}
         then [DashCard(Shown(Member(top.card, "type"), "unknown"), ListTitle(top.card, top.fallback), es)] else [])
  }

  lemma {:induction false} SpacedIs(s: string)
    ensures |Spaced(s)| == |s| && forall i :: 0 <= i < |s| ==> Spaced(s)[i] == if s[i] == '-' then ' ' else s[i]
    decreases |s|
  {
    if s != "" {
      SpacedIs(s[1..]);
      assert forall i :: 0 < i < |s| ==> Spaced(s)[i] == Spaced(s[1..])[i - 1] && s[i] == s[1..][i - 1];
    }
  }

  lemma {:induction false} TypeTitleIs(t: string)
    ensures Capitalized(Spaced(t)) == TypeTitle(t)
  {
    SpacedIs(t);
  }

  lemma {:induction false} ListTitleIs(card: Json, fallback: string)
    requires card.Obj?
    ensures CardTitle(card, fallback) == ListTitle(card, fallback) && CardType(card) == Shown(Member(card, "type"), "unknown")
  {
    hide TypeTitle, Capitalized, Spaced, TextOr, Shown;
    var t := CardType(card);
    ShownIs(Member(card, "type"), "unknown");
    TypeTitleIs(t);
    var last := if fallback != "" then fallback else TypeTitle(t);
    ShownIs(Member(card, "name"), last);
    ShownIs(Member(card, "title"), Shown(Member(card, "name"), last));
  }

  lemma {:induction false} ListingMore(view: string, a: seq<Top>, b: seq<Top>)
    ensures Listing(view, a + b) == Listing(view, a) + Listing(view, b)
    decreases |b|
  {
    hide Nodes, EntitiesOf, ListTitle, Shown;
    if b == [] {
      assert a + b == a;
    } else {
      ListingMore(view, a, b[..|b| - 1]);
      assert (a + b)[..|a + b| - 1] == a + b[..|b| - 1];
    }
  }

  lemma {:induction false} CardsUnderAre(view: string, container: Json, key: string, path: Path, fallback: string, n: nat)
    requires container.Obj? && n <= |Children(container, key)|
    ensures CardsUnder(view, container, key, path, fallback, n) == Listing(view, TopsUnder(container, key, path, fallback)[..n])
    decreases n
  {
    hide Nodes, EntitiesOf, CardTitle, CardType, ListTitle, Shown;
    if n > 0 {
      var tops := TopsUnder(container, key, path, fallback);
      CardsUnderAre(view, container, key, path, fallback, n - 1);
      assert tops[..n][..n - 1] == tops[..n - 1];
      if tops[n - 1].card.Obj? {
        ListTitleIs(tops[n - 1].card, fallback);
      }
    }
  }

  lemma {:induction false} AllCardsAre(view: string, container: Json, key: string, path: Path, fallback: string)
    requires container.Obj?
    ensures CardsUnder(view, container, key, path, fallback, |Children(container, key)|) == Listing(view, TopsUnder(container, key, path, fallback))
  {
    hide Listing, CardsUnder;
    var tops := TopsUnder(container, key, path, fallback);
    CardsUnderAre(view, container, key, path, fallback, |tops|);
    assert tops[..|tops|] == tops;
  }

  lemma {:induction false} SectionCardsAre(view: Json, index: nat, n: nat)
    requires view.Obj? && n <= |Children(view, "sections")|
    ensures SectionCards(view, index, n) == Listing(ViewTitle(view, index), SectionTops(view, index, n))
    decreases n
  {
    hide Listing, CardsUnder, ViewTitle, TopsUnder, Shown, Numeral;
    var title := ViewTitle(view, index);
    if n == 0 {
      NothingListed(title);
    } else {
      var section := Children(view, "sections")[n - 1];
      SectionCardsAre(view, index, n - 1);
      if section.Obj? {
        var fallback := Shown(Member(section, "title"), "Section " + Numeral(n));
        ShownIs(Member(section, "title"), "Section " + Decimal(n));
        NumeralIs(n);
        assert SectionPath(index, n - 1) == [Key("views"), At(index), Key("sections"), At(n - 1)];
        AllCardsAre(title, section, "cards", SectionPath(index, n - 1), fallback);
        ListingMore(title, SectionTops(view, index, n - 1), TopsUnder(section, "cards", SectionPath(index, n - 1), fallback));
      } else {
        assert SectionTops(view, index, n) == SectionTops(view, index, n - 1) + [] == SectionTops(view, index, n - 1);
      }
    }
  }

  lemma {:induction false} NothingListed(view: string)
    ensures Listing(view, []) == []
  {
  }

  /** The cards listed for a view: those of its tops, in their order. */
  lemma {:induction false} ListsExactly(view: Json, index: nat)
    requires view.Obj?
    ensures ViewCards(view, index) == Listing(TitleOf(view, index), Tops(view, index))
  {
    hide Listing, CardsUnder, ViewTitle, TopsUnder, SectionCards, SectionTops, TitleOf;
    var title := ViewTitle(view, index);
    var path := [Key("views"), At(index)];
    assert ViewPath(index) == path;
    var n := |Children(view, "sections")|;
    TitleIs(view, index);
    AllCardsAre(title, view, "cards", path, "");
    AllCardsAre(title, view, "badges", path, "Badges");
    SectionCardsAre(view, index, n);
    ListingMore(title, TopsUnder(view, "cards", path, ""), SectionTops(view, index, n));
    ListingMore(title, TopsUnder(view, "cards", path, "") + SectionTops(view, index, n), TopsUnder(view, "badges", path, "Badges"));
  }

  /** The entities listed for a card are those that the cards of its tree name or show. */
  lemma {:induction false} TreeEntitiesExactly(view: string, top: Top, e: string)
    ensures e in EntitiesOf(Nodes(view, top.card, top.path))
      <==> exists x :: IsInTree(view, top, x) && (NamedIn(e, x.card) || IsCameraOf(e, x.card))
  {
    hide Nodes, IsInTree, NamedIn, IsCameraOf, NamedRefs, CameraRefs;
    var nodes := Nodes(view, top.card, top.path);
    forall x
      ensures x in nodes <==> IsInTree(view, top, x)
      ensures e in OwnRefs(x.card) <==> NamedIn(e, x.card) || IsCameraOf(e, x.card)
    {
      TreeIs(view, top, x);
      NamedByPosition(x.card, e);
      CameraRefsAre(x.card, e);
    }
    hide OwnRefs;
    assert e in EntitiesOf(nodes) <==> exists x :: x in nodes && e in OwnRefs(x.card);
  }

  // ----- The export -----

  /** The entity was harvested, and is selected if there is a selection. */
  predicate IsChosen(h: Harvest, selected: Option<seq<string>>, e: string) {
    e in h.entities && (selected.None? || e in selected.value)
  }

  function ChosenOf(h: Harvest, selected: Option<seq<string>>, es: set<string>): set<string> {
    set e | e in es && IsChosen(h, selected, e)
  }

  /** The cards with their chosen entities, without those that have none. */
  function ChosenCards(h: Harvest, selected: Option<seq<string>>, cards: seq<DashCard>): seq<DashCard>
    decreases |cards|
  {
    if cards == [] then []
    else
      var before, card := ChosenCards(h, selected, cards[..|cards| - 1]), cards[|cards| - 1];
      if ChosenOf(h, selected, card.entities) == {} then before
      else before + [DashCard(card.cardType, card.title, ChosenOf(h, selected, card.entities))]
  }

  lemma {:induction false} CardsConcat(a: seq<DashCard>, b: seq<DashCard>, chosen: set<string>)
    ensures DashboardCards(a + b, chosen) == DashboardCards(a, chosen) + DashboardCards(b, chosen)
    decreases |a|
  {
    if a == [] {
      assert a + b == b;
    } else {
      CardsConcat(a[1..], b, chosen);
      assert (a + b)[1..] == a[1..] + b;
    }
  }

  lemma {:induction false} ChosenCardsAre(h: Harvest, selected: Option<seq<string>>, cards: seq<DashCard>)
    ensures DashboardCards(cards, Selection(h.entities, selected)) == ChosenCards(h, selected, cards)
    decreases |cards|
  {
    if cards != [] {
      var init, card := cards[..|cards| - 1], cards[|cards| - 1];
      var chosen := Selection(h.entities, selected);
      ChosenCardsAre(h, selected, init);
      CardsConcat(init, [card], chosen);
      assert cards == init + [card];
      assert card.entities * chosen == ChosenOf(h, selected, card.entities);
      OneCard(card, chosen);
    }
  }

  lemma {:induction false} OneCard(card: DashCard, chosen: set<string>)
    ensures DashboardCards([card], chosen) == if card.entities * chosen == {} then [] else [card.(entities := card.entities * chosen)]
  {
    assert [card][1..] == [];
  }

  /** An export has in each scope the chosen ones of the harvested entities, and the cards with theirs, in order. */
  lemma {:induction false} ExportsExactly(h: Harvest, selected: Option<seq<string>>)
    ensures var m := BuildManifest(h, selected);
      && m.readEntities == ChosenOf(h, selected, h.readEntities) && m.subscriptions == ChosenOf(h, selected, h.subscriptions)
      && m.history == ChosenOf(h, selected, h.history) && m.cameras == ChosenOf(h, selected, h.cameras)
      && m.cards == ChosenCards(h, selected, h.cards)
  {
    hide DashboardCards, ChosenCards;
    ChosenCardsAre(h, selected, h.cards);
  }
}
