/** What a dashboard config refers to: a pure account of its tree of cards. */
module HarvestSpec {
  import opened Options
  import Policy

  /** A config value; a number or a boolean is known by its text and its truth. */
  datatype Json =
    | Null
    | Str(text: string)
    | Scalar(shown: string, truth: bool)
    | List(items: seq<Json>)
    | Obj(fields: seq<Field>)

  datatype Field = Field(key: string, value: Json)

  datatype PathStep = Key(key: string) | At(index: nat)

  type Path = seq<PathStep>

  datatype Context = Context(view: string, cardType: string, path: Path)

  datatype Kind =
    | NoViews | ViewNotFound(index: int) | ViewNotObject | CardNotObject | Unresolved
    | CustomRow | CustomCard | AutoEntities | Dynamic | TemplateContent

  datatype Warning = Warning(path: Path, kind: Kind)

  /** A card in its place. */
  datatype Node = Node(view: string, path: Path, card: Json)

  // ----- Values -----

  function Lookup(fields: seq<Field>, key: string): Json {
    if fields == [] then Null
    else if fields[0].key == key then fields[0].value
    else Lookup(fields[1..], key)
  }

  predicate HasKey(fields: seq<Field>, key: string) {
    exists i :: 0 <= i < |fields| && fields[i].key == key
  }

  lemma {:induction false} LookupIsField(fields: seq<Field>, key: string)
    ensures Lookup(fields, key) == Null || exists i :: 0 <= i < |fields| && fields[i] == Field(key, Lookup(fields, key))
    decreases |fields|
  {
    if fields != [] && fields[0].key != key {
      LookupIsField(fields[1..], key);
      if Lookup(fields, key) != Null {
        var i :| 0 <= i < |fields[1..]| && fields[1..][i] == Field(key, Lookup(fields, key));
        assert fields[i + 1] == Field(key, Lookup(fields, key));
      }
    } else if fields != [] {
      assert fields[0] == Field(key, Lookup(fields, key));
    }
  }

  /** The value of a key, or `Null` if there is none; it is smaller than the card. */
  function Member(card: Json, key: string): (v: Json)
    requires card.Obj?
    ensures v == Null || v < card
  {
    LookupIsField(card.fields, key);
    Lookup(card.fields, key)
  }

  function AsList(v: Json): seq<Json> {
    match v
    case Null => []
    case List(items) => items
    case _ => [v]
  }

  function Children(card: Json, key: string): (children: seq<Json>)
    requires card.Obj?
    ensures forall i :: 0 <= i < |children| ==> children[i] < card
  {
    AsList(Member(card, key))
  }

  predicate Truthy(v: Json) {
    match v
    case Null => false
    case Str(s) => s != ""
    case Scalar(_, t) => t
    case List(items) => items != []
    case Obj(fields) => fields != []
  }

  /** A value as text; that of lists and mappings does not matter here. */
  function Text(v: Json): string {
    match v
    case Null => "None"
    case Str(s) => s
    case Scalar(t, _) => t
    case List(_) => "[]"
    case Obj(_) => "{}"
  }

  function TextOr(v: Json, otherwise: string): string {
    if Truthy(v) then Text(v) else otherwise
  }

  predicate Contains(s: string, part: string) {
    exists i :: 0 <= i <= |s| && part <= s[i..]
  }

  predicate IsName(s: string) {
    s != "" && forall i :: 0 <= i < |s| ==> 'a' <= s[i] <= 'z' || '0' <= s[i] <= '9' || s[i] == '_'
  }

  /** The entity pattern: two names with a dot between them; the pattern's end also matches before a final line break. */
  predicate IsEntity(s: string) {
    exists i :: 0 <= i < |s| && s[i] == '.' && IsName(s[..i])
      && (IsName(s[i + 1..]) || (s[|s| - 1] == '\n' && i + 1 < |s| && IsName(s[i + 1..|s| - 1])))
  }

  // ----- References -----

  /** The entities of the value of an `entity` or `entities` key. */
  function ValueRefs(v: Json): set<string>
    decreases v, 1, 0
  {
    match v
    case Str(s) => if IsEntity(s) then {s} else {}
    case List(items) => ItemRefs(v, |items|)
    case Obj(fields) =>
      if HasKey(fields, "entity") && Member(v, "entity") != Null then ValueRefs(Member(v, "entity")) else {}
    case _ => {}
  }

  function ItemRefs(v: Json, n: nat): set<string>
    requires v.List? && n <= |v.items|
    decreases v, 0, n
  {
    if n == 0 then {} else ItemRefs(v, n - 1) + ValueRefs(v.items[n - 1])
  }

  function ValueWarnings(v: Json, path: Path): set<Warning>
    decreases v, 1, 0
  {
    match v
    case Str(s) => if !IsEntity(s) && (Contains(s, "{{") || Contains(s, "[[")) then {Warning(path, Unresolved)} else {}
    case List(items) => ItemWarnings(v, path, |items|)
    case Obj(fields) =>
      if HasKey(fields, "entity") then
        if Member(v, "entity") != Null then ValueWarnings(Member(v, "entity"), path + [Key("entity")]) else {}
      else if HasKey(fields, "type") && "custom:" <= Text(Member(v, "type")) then {Warning(path, CustomRow)}
      else {}
    case _ => {}
  }

  function ItemWarnings(v: Json, path: Path, n: nat): set<Warning>
    requires v.List? && n <= |v.items|
    decreases v, 0, n
  {
    if n == 0 then {} else ItemWarnings(v, path, n - 1) + ValueWarnings(v.items[n - 1], path + [At(n - 1)])
  }

  predicate IsChildKey(key: string) { key in {"card", "cards", "elements"} }

  predicate IsEntityKey(key: string) { key in {"entity", "entities"} }

  /** The entities under the entity keys of a mapping, at any depth but not inside nested cards. */
  function NamedRefs(v: Json): set<string>
    decreases v, 2, 0
  {
    if v.Obj? then FieldsRefs(v, |v.fields|) else {}
  }

  function FieldsRefs(v: Json, n: nat): set<string>
    requires v.Obj? && n <= |v.fields|
    decreases v, 1, n
  {
    if n == 0 then {} else FieldsRefs(v, n - 1) + FieldRefs(v.fields[n - 1].key, v.fields[n - 1].value)
  }

  function FieldRefs(key: string, value: Json): set<string>
    decreases value, 3, 0
  {
    if IsChildKey(key) then {}
    else if IsEntityKey(key) then ValueRefs(value)
    else if value.List? then NestedRefs(value, |value.items|)
    else NamedRefs(value)
  }

  function NestedRefs(v: Json, n: nat): set<string>
    requires v.List? && n <= |v.items|
    decreases v, 0, n
  {
    if n == 0 then {} else NestedRefs(v, n - 1) + NamedRefs(v.items[n - 1])
  }

  function NamedWarnings(v: Json, path: Path): set<Warning>
    decreases v, 2, 0
  {
    if v.Obj? then FieldsWarnings(v, path, |v.fields|) else {}
  }

  function FieldsWarnings(v: Json, path: Path, n: nat): set<Warning>
    requires v.Obj? && n <= |v.fields|
    decreases v, 1, n
  {
    if n == 0 then {}
    else
      var f := v.fields[n - 1];
      FieldsWarnings(v, path, n - 1) + FieldWarnings(f.key, f.value, path + [Key(f.key)])
  }

  function FieldWarnings(key: string, value: Json, path: Path): set<Warning>
    decreases value, 3, 0
  {
    if IsChildKey(key) then {}
    else if IsEntityKey(key) then ValueWarnings(value, path)
    else if value.List? then NestedWarnings(value, path, |value.items|)
    else NamedWarnings(value, path)
  }

  function NestedWarnings(v: Json, path: Path, n: nat): set<Warning>
    requires v.List? && n <= |v.items|
    decreases v, 0, n
  {
    if n == 0 then {} else NestedWarnings(v, path, n - 1) + NamedWarnings(v.items[n - 1], path + [At(n - 1)])
  }

  // ----- One card -----

  function CardType(card: Json): string
    requires card.Obj?
  {
    TextOr(Member(card, "type"), "unknown")
  }

  predicate IsHistoryCard(card: Json) { card.Obj? && CardType(card) == "history-graph" }

  predicate IsCameraCard(card: Json) { card.Obj? && CardType(card) in {"camera", "picture-glance", "picture-entity"} }

  predicate IsCamera(e: string) { Policy.DomainOf(e) == "camera" }

  function CamerasAmong(es: set<string>): set<string> {
    set e | e in es && IsCamera(e)
  }

  /** The camera entities of a camera card, its image included. */
  function CameraRefs(card: Json): set<string> {
    if IsCameraCard(card) then CamerasAmong(NamedRefs(card) + ValueRefs(Member(card, "camera_image"))) else {}
  }

  function OwnRefs(card: Json): set<string> {
    NamedRefs(card) + CameraRefs(card)
  }

  predicate HasTemplate(card: Json)
    requires card.Obj?
  {
    exists i :: 0 <= i < |card.fields| && card.fields[i].value.Str? && Contains(card.fields[i].value.text, "{{")
  }

  function DynamicWarnings(card: Json, path: Path): set<Warning>
    requires card.Obj?
  {
    var t := CardType(card);
    (if "custom:" <= t then {Warning(path, CustomCard)} else {})
    + (if Contains(t, "auto-entities") then {Warning(path, AutoEntities)} else {})
    + (if t in {"area", "tile", "weather", "weather-forecast"} then {Warning(path, Dynamic)} else {})
    + (if HasTemplate(card) then {Warning(path, TemplateContent)} else {})
  }

  function OwnWarnings(card: Json, path: Path): set<Warning> {
    if !card.Obj? then {Warning(path, CardNotObject)}
    else
      DynamicWarnings(card, path) + NamedWarnings(card, path)
      + (if IsCameraCard(card) then ValueWarnings(Member(card, "camera_image"), path + [Key("camera_image")]) else {})
  }

  // ----- The tree of cards -----

  /** A card and all cards nested in it. */
  function Nodes(view: string, card: Json, path: Path): set<Node>
    decreases card, 1, 0
  {
    {Node(view, path, card)}
    + (if card.Obj? then AllUnder(view, card, "cards", path) + AllUnder(view, card, "elements", path) + AllUnder(view, card, "card", path)
       else {})
  }

  function AllUnder(view: string, card: Json, key: string, path: Path): set<Node>
    requires card.Obj?
    decreases card, 0, |Children(card, key)| + 1
  {
    NodesUnder(view, card, key, path, |Children(card, key)|)
  }

  function NodesUnder(view: string, card: Json, key: string, path: Path, n: nat): set<Node>
    requires card.Obj? && n <= |Children(card, key)|
    decreases card, 0, n
  {
    if n == 0 then {}
    else NodesUnder(view, card, key, path, n - 1) + Nodes(view, Children(card, key)[n - 1], path + [Key(key), At(n - 1)])
  }

  function ReadsOf(nodes: set<Node>): set<string> {
    set n, e | n in nodes && e in NamedRefs(n.card) :: e
  }

  function HistoryOf(nodes: set<Node>): set<string> {
    set n, e | n in nodes && IsHistoryCard(n.card) && e in NamedRefs(n.card) :: e
  }

  function CamerasOf(nodes: set<Node>): set<string> {
    set n, e | n in nodes && e in CameraRefs(n.card) :: e
  }

  function EntitiesOf(nodes: set<Node>): set<string> {
    set n, e | n in nodes && e in OwnRefs(n.card) :: e
  }

  function ContextOf(n: Node): Context
    requires n.card.Obj?
  {
    Context(n.view, CardType(n.card), n.path)
  }

  function RefsOf(nodes: set<Node>): set<(string, Context)> {
    set n, e | n in nodes && n.card.Obj? && e in OwnRefs(n.card) :: (e, ContextOf(n))
  }

  function WarningsOf(nodes: set<Node>): set<Warning> {
    set n, w | n in nodes && w in OwnWarnings(n.card, n.path) :: w
  }

  // ----- Views -----

  function Decimal(n: nat): string {
    (if n < 10 then [] else Decimal(n / 10)) + [(n % 10) as char + '0']
  }

  function ViewTitle(view: Json, index: nat): string
    requires view.Obj?
  {
    TextOr(Member(view, "title"), TextOr(Member(view, "path"), "View " + Decimal(index + 1)))
  }

  function ViewPath(index: nat): Path { [Key("views"), At(index)] }

  function SectionPath(index: nat, n: nat): Path { ViewPath(index) + [Key("sections"), At(n)] }

  /** The cards of the first `n` sections; a section that is no mapping is skipped. */
  function SectionNodes(view: Json, index: nat, n: nat): set<Node>
    requires view.Obj? && n <= |Children(view, "sections")|
  {
    if n == 0 then {}
    else
      var section := Children(view, "sections")[n - 1];
      SectionNodes(view, index, n - 1)
      + (if section.Obj? then AllUnder(ViewTitle(view, index), section, "cards", SectionPath(index, n - 1)) else {})
  }

  /** All cards of a view: its own, those of its sections, and its badges. */
  function ViewNodes(view: Json, index: nat): set<Node> {
    if !view.Obj? then {}
    else
      var title := ViewTitle(view, index);
      AllUnder(title, view, "cards", ViewPath(index)) + SectionNodes(view, index, |Children(view, "sections")|)
      + AllUnder(title, view, "badges", ViewPath(index))
  }

  function Views(config: Json): seq<Json> {
    if config.Obj? && Member(config, "views").List? then Member(config, "views").items else []
  }

  /** The positions of the views to harvest. */
  function Selected(config: Json, viewIndex: Option<int>): seq<nat> {
    var views := Views(config);
    match viewIndex
    case None => seq(|views|, i => i)
    case Some(i) => if 0 <= i < |views| then [i] else []
  }

  function NodesOfViews(views: seq<Json>, selected: seq<nat>): set<Node>
    requires forall i :: 0 <= i < |selected| ==> selected[i] < |views|
    decreases |selected|
  {
    if selected == [] then {}
    else
      var last := |selected| - 1;
      NodesOfViews(views, selected[..last]) + ViewNodes(views[selected[last]], selected[last])
  }

  /** All cards that are harvested. */
  function HarvestNodes(config: Json, viewIndex: Option<int>): set<Node> {
    NodesOfViews(Views(config), Selected(config, viewIndex))
  }

  function ViewWarnings(views: seq<Json>, selected: seq<nat>): set<Warning>
    requires forall i :: 0 <= i < |selected| ==> selected[i] < |views|
    decreases |selected|
  {
    if selected == [] then {}
    else
      var last := |selected| - 1;
      ViewWarnings(views, selected[..last])
      + (if views[selected[last]].Obj? then {} else {Warning(ViewPath(selected[last]), ViewNotObject)})
  }

  /** Warnings about the views themselves. */
  function ConfigWarnings(config: Json, viewIndex: Option<int>): set<Warning> {
    (if config.Obj? && !Member(config, "views").List? then {Warning([Key("views")], NoViews)} else {})
    + (if viewIndex.Some? && !(0 <= viewIndex.value < |Views(config)|) then {Warning([Key("views")], ViewNotFound(viewIndex.value))} else {})
    + ViewWarnings(Views(config), Selected(config, viewIndex))
  }

  // ----- Cards for the manifest -----

  datatype DashCard = DashCard(cardType: string, title: string, entities: set<string>)

  function Spaced(s: string): string {
    if s == "" then "" else [if s[0] == '-' then ' ' else s[0]] + Spaced(s[1..])
  }

  function Capitalized(s: string): string {
    if s == "" then "" else [if 'a' <= s[0] <= 'z' then s[0] - 'a' + 'A' else s[0]] + s[1..]
  }

  function CardTitle(card: Json, fallback: string): string
    requires card.Obj?
  {
    TextOr(Member(card, "title"), TextOr(Member(card, "name"), if fallback != "" then fallback else Capitalized(Spaced(CardType(card)))))
  }

  /** A card that is a mapping and refers to something. */
  function CardsFor(card: Json, entities: set<string>, fallback: string): seq<DashCard> {
    if entities == {} || !card.Obj? then [] else [DashCard(CardType(card), CardTitle(card, fallback), entities)]
  }

  function CardsUnder(view: string, container: Json, key: string, path: Path, fallback: string, n: nat): seq<DashCard>
    requires container.Obj? && n <= |Children(container, key)|
  {
    if n == 0 then []
    else
      var card := Children(container, key)[n - 1];
      CardsUnder(view, container, key, path, fallback, n - 1)
      + CardsFor(card, EntitiesOf(Nodes(view, card, path + [Key(key), At(n - 1)])), fallback)
  }

  function SectionTitle(section: Json, n: nat): string
    requires section.Obj?
  {
    TextOr(Member(section, "title"), "Section " + Decimal(n + 1))
  }

  function SectionCards(view: Json, index: nat, n: nat): seq<DashCard>
    requires view.Obj? && n <= |Children(view, "sections")|
  {
    if n == 0 then []
    else
      var section := Children(view, "sections")[n - 1];
      SectionCards(view, index, n - 1)
      + (if section.Obj?
         then CardsUnder(ViewTitle(view, index), section, "cards", SectionPath(index, n - 1),
                         SectionTitle(section, n - 1), |Children(section, "cards")|)
         else [])
  }

  function ViewCards(view: Json, index: nat): seq<DashCard> {
    if !view.Obj? then []
    else
      var title := ViewTitle(view, index);
      CardsUnder(title, view, "cards", ViewPath(index), "", |Children(view, "cards")|)
      + SectionCards(view, index, |Children(view, "sections")|)
      + CardsUnder(title, view, "badges", ViewPath(index), "Badges", |Children(view, "badges")|)
  }

  function CardsOfViews(views: seq<Json>, selected: seq<nat>): seq<DashCard>
    requires forall i :: 0 <= i < |selected| ==> selected[i] < |views|
    decreases |selected|
  {
    if selected == [] then []
    else
      var last := |selected| - 1;
      CardsOfViews(views, selected[..last]) + ViewCards(views[selected[last]], selected[last])
  }

  // ----- What a walk collects -----

  datatype Tally = Tally(
    readEntities: set<string>, subscriptions: set<string>, history: set<string>, cameras: set<string>,
    refs: set<(string, Context)>, warnings: set<Warning>)

  function Add(t: Tally, nodes: set<Node>): Tally {
    Tally(t.readEntities + ReadsOf(nodes), t.subscriptions + ReadsOf(nodes), t.history + HistoryOf(nodes), t.cameras + CamerasOf(nodes),
          t.refs + RefsOf(nodes), t.warnings + WarningsOf(nodes))
  }

  lemma {:induction false} ReadsUnion(a: set<Node>, b: set<Node>)
    ensures ReadsOf(a + b) == ReadsOf(a) + ReadsOf(b) && HistoryOf(a + b) == HistoryOf(a) + HistoryOf(b)
  {
  }

  lemma {:induction false} OwnUnion(a: set<Node>, b: set<Node>)
    ensures CamerasOf(a + b) == CamerasOf(a) + CamerasOf(b) && EntitiesOf(a + b) == EntitiesOf(a) + EntitiesOf(b)
  {
  }

  lemma {:induction false} RefsUnion(a: set<Node>, b: set<Node>)
    ensures RefsOf(a + b) == RefsOf(a) + RefsOf(b) && WarningsOf(a + b) == WarningsOf(a) + WarningsOf(b)
  {
  }

  function Pairs(es: set<string>, c: Context): set<(string, Context)> {
    set e | e in es :: (e, c)
  }

  lemma {:induction false} OfOneNode(n: Node)
    ensures ReadsOf({n}) == NamedRefs(n.card) && HistoryOf({n}) == (if IsHistoryCard(n.card) then NamedRefs(n.card) else {})
    ensures CamerasOf({n}) == CameraRefs(n.card) && EntitiesOf({n}) == OwnRefs(n.card)
    ensures RefsOf({n}) == (if n.card.Obj? then Pairs(OwnRefs(n.card), ContextOf(n)) else {})
    ensures WarningsOf({n}) == OwnWarnings(n.card, n.path)
  {
    hide NamedRefs, CameraRefs, OwnRefs, OwnWarnings, CardType;
  }

  lemma {:induction false} OfNoNode(t: Tally)
    ensures Add(t, {}) == t && EntitiesOf({}) == {}
  {
  }

  lemma {:induction false} AddTwice(t: Tally, a: set<Node>, b: set<Node>)
    ensures Add(Add(t, a), b) == Add(t, a + b)
  {
    hide ReadsOf, HistoryOf, CamerasOf, RefsOf, WarningsOf;
    ReadsUnion(a, b);
    OwnUnion(a, b);
    RefsUnion(a, b);
  }
}
