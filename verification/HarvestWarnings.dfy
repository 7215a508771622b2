/** Which warnings a harvest gives, by position. */
module HarvestWarnings {
  import opened Options
  import opened HarvestSpec
  import opened HarvestPositions
  import opened HarvestProperties
  import opened HarvestMeaning

  /** The part stands somewhere in the text. */
  ghost predicate Holds(s: string, part: string) {
    exists before, after :: s == before + part + after
  }

  lemma {:induction false} SplitAround(s: string, part: string, i: nat)
    requires i <= |s| && part <= s[i..]
    ensures s == s[..i] + part + s[i..][|part|..]
  {
    assert s[i..] == part + s[i..][|part|..];
    assert s == s[..i] + s[i..];
  }

  lemma {:induction false} JoinedAt(before: string, part: string, after: string)
    ensures (before + part + after)[|before|..] == part + after
  {
    assert before + part + after == before + (part + after);
  }

  lemma {:induction false} HoldsExactly(s: string, part: string)
    ensures Contains(s, part) <==> Holds(s, part)
  {
    if Contains(s, part) {
      var i :| 0 <= i <= |s| && part <= s[i..];
      SplitAround(s, part, i);
    }
    if Holds(s, part) {
      var before, after :| s == before + part + after;
      JoinedAt(before, part, after);
      assert 0 <= |before| <= |s| && part <= s[|before|..];
    }
  }

  // ----- Inside the value of an entity key -----

  /** The type's text begins with "custom:". */
  predicate IsCustom(v: Json)
    requires v.Obj?
  {
    var t := Member(v, "type"); (t.Str? && "custom:" <= t.text) || (t.Scalar? && "custom:" <= t.shown)
  }

  /** What cannot be resolved under an entity key: a template, or a custom row without an entity. */
  ghost predicate IsOdd(v: Json, kind: Kind) {
    || (v.Str? && !IsEntityId(v.text) && (Holds(v.text, "{{") || Holds(v.text, "[[")) && kind == Unresolved)
    || (v.Obj? && !HasKey(v.fields, "entity") && IsCustom(v) && kind == CustomRow)
  }

  function StepPath(path: Path, steps: seq<Step>): Path
    decreases |steps|
  {
    if steps == [] then path
    else StepPath(path + [match steps[0] case ListItem(i) => At(i) case ItsEntity => Key("entity")], steps[1..])
  }

  ghost predicate OddAt(v: Json, steps: seq<Step>, path: Path, w: Warning) {
    ValueAt(v, steps).Some? && IsOdd(ValueAt(v, steps).value, w.kind) && w.path == StepPath(path, steps)
  }

  ghost predicate WarnsIn(v: Json, path: Path, w: Warning) {
    exists steps: seq<Step> :: OddAt(v, steps, path, w)
  }

  lemma {:induction false} WarnsHere(v: Json, path: Path, w: Warning)
    requires !v.List? && !(v.Obj? && Member(v, "entity") != Null)
    ensures WarnsIn(v, path, w) <==> IsOdd(v, w.kind) && w.path == path
  {
    hide IsOdd;
    assert ValueAt(v, []) == Some(v) && StepPath(path, []) == path;
    assert OddAt(v, [], path, w) <==> IsOdd(v, w.kind) && w.path == path;
    if WarnsIn(v, path, w) {
      var steps: seq<Step> :| OddAt(v, steps, path, w);
      if steps != [] {
        NothingUnderNull(steps[1..], path + [Key("entity")], w);
      }
    }
  }

  lemma {:induction false} NothingUnderNull(steps: seq<Step>, path: Path, w: Warning)
    ensures !OddAt(Null, steps, path, w)
  {
  }

  lemma {:induction false} WarnsBelow(v: Json, path: Path, w: Warning, s: Step, below: Json)
    requires (s.ListItem? && v.List? && s.index < |v.items| && below == v.items[s.index]) || (s.ItsEntity? && v.Obj? && below == Member(v, "entity"))
    requires WarnsIn(below, path + [match s case ListItem(i) => At(i) case ItsEntity => Key("entity")], w)
    ensures WarnsIn(v, path, w)
  {
    hide IsOdd;
    var steps: seq<Step> :| OddAt(below, steps, path + [match s case ListItem(i) => At(i) case ItsEntity => Key("entity")], w);
    assert ([s] + steps)[1..] == steps;
    assert OddAt(v, [s] + steps, path, w);
  }

  lemma {:induction false} ValueWarnsExactly(v: Json, path: Path, w: Warning)
    ensures w in ValueWarnings(v, path) <==> WarnsIn(v, path, w)
    decreases v, 1, 0
  {
    hide WarnsIn, IsEntity, IsEntityId, Contains, Holds;
    match v
    case Str(s) =>
      WarnsHere(v, path, w);
      EntityIdExactly(s);
      HoldsExactly(s, "{{");
      HoldsExactly(s, "[[");
    case List(items) =>
      ItemsWarn(v, path, |items|, w);
      WarnsInItem(v, path, w);
    case Obj(fields) => EntityWarns(v, path, w);
    case _ => WarnsHere(v, path, w);
  }

  lemma {:induction false} EntityWarns(v: Json, path: Path, w: Warning)
    requires v.Obj?
    ensures w in ValueWarnings(v, path) <==> WarnsIn(v, path, w)
    decreases v, 0, 0
  {
    hide IsEntity, IsEntityId, Contains, Holds;
    var m := Member(v, "entity");
    MissingIsNull(v, "entity");
    if m != Null {
      ValueWarnsExactly(m, path + [Key("entity")], w);
      if WarnsIn(m, path + [Key("entity")], w) {
        WarnsBelow(v, path, w, ItsEntity, m);
      }
      if WarnsIn(v, path, w) {
        var steps: seq<Step> :| OddAt(v, steps, path, w);
        assert OddAt(m, steps[1..], path + [Key("entity")], w);
      }
    } else {
      WarnsHere(v, path, w);
      CustomExactly(v);
    }
  }

  lemma {:induction false} CustomExactly(v: Json)
    requires v.Obj?
    ensures HasKey(v.fields, "type") && "custom:" <= Text(Member(v, "type")) <==> IsCustom(v)
  {
    MissingIsNull(v, "type");
    assert "None"[0] == 'N' && "[]"[0] == '[' && "{}"[0] == '{' && "custom:"[0] == 'c';
  }

  lemma {:induction false} ItemsWarn(v: Json, path: Path, n: nat, w: Warning)
    requires v.List? && n <= |v.items|
    ensures w in ItemWarnings(v, path, n) <==> exists i :: 0 <= i < n && WarnsIn(v.items[i], path + [At(i)], w)
    decreases v, 0, n
  {
    hide ValueWarnings, WarnsIn;
    if n > 0 {
      ItemsWarn(v, path, n - 1, w);
      ValueWarnsExactly(v.items[n - 1], path + [At(n - 1)], w);
    }
  }

  lemma {:induction false} WarnsInItem(v: Json, path: Path, w: Warning)
    requires v.List?
    ensures WarnsIn(v, path, w) <==> exists i :: 0 <= i < |v.items| && WarnsIn(v.items[i], path + [At(i)], w)
  {
    hide IsOdd;
    if WarnsIn(v, path, w) {
      var steps: seq<Step> :| OddAt(v, steps, path, w);
      ListsAreFine(v, steps, path, w);
      var i := steps[0].index;
      assert OddAt(v.items[i], steps[1..], path + [At(i)], w);
      assert WarnsIn(v.items[i], path + [At(i)], w);
    }
    if i :| 0 <= i < |v.items| && WarnsIn(v.items[i], path + [At(i)], w) {
      WarnsBelow(v, path, w, ListItem(i), v.items[i]);
    }
  }

  lemma {:induction false} ListsAreFine(v: Json, steps: seq<Step>, path: Path, w: Warning)
    requires v.List? && OddAt(v, steps, path, w)
    ensures steps != [] && steps[0].ListItem?
  {
  }

  // ----- Down to an entity key -----

  function HopPath(v: Json, hops: seq<Hop>, path: Path): Path
    requires PartAt(v, hops).Some?
    decreases |hops|
  {
    if hops == [] then path
    else
      var value := v.fields[hops[0].field].value;
      var down := path + [Key(v.fields[hops[0].field].key)];
      match hops[0]
      case Into(_) => HopPath(value, hops[1..], down)
      case IntoItem(_, i) => HopPath(value.items[i], hops[1..], down + [At(i)])
  }

  /** One of the part's entity keys holds something odd. */
  ghost predicate KeyWarns(part: Json, path: Path, w: Warning) {
    && part.Obj?
    && exists k :: 0 <= k < |part.fields| && part.fields[k].key in {"entity", "entities"}
         && WarnsIn(part.fields[k].value, path + [Key(part.fields[k].key)], w)
  }

  ghost predicate WarnsAt(v: Json, path: Path, w: Warning, hops: seq<Hop>) {
    PartAt(v, hops).Some? && KeyWarns(PartAt(v, hops).value, HopPath(v, hops, path), w)
  }

  ghost predicate NamedWarns(v: Json, path: Path, w: Warning) {
    exists hops: seq<Hop> :: WarnsAt(v, path, w, hops)
  }

  ghost predicate FieldWarns(key: string, value: Json, path: Path, w: Warning) {
    if IsChildKey(key) then false
    else if IsEntityKey(key) then WarnsIn(value, path, w)
    else if value.List? then exists i :: 0 <= i < |value.items| && NamedWarns(value.items[i], path + [At(i)], w)
    else NamedWarns(value, path, w)
  }

  lemma {:induction false} NamedWarnsBelow(v: Json, path: Path, w: Warning, h: Hop, below: Json, down: Path)
    requires Passable(v, h.field)
    requires var value, at := v.fields[h.field].value, path + [Key(v.fields[h.field].key)];
      if h.Into? then !value.List? && below == value && down == at
      else value.List? && h.index < |value.items| && below == value.items[h.index] && down == at + [At(h.index)]
    requires NamedWarns(below, down, w)
    ensures NamedWarns(v, path, w)
  {
    hide KeyWarns;
    var hops: seq<Hop> :| WarnsAt(below, down, w, hops);
    assert ([h] + hops)[1..] == hops;
    assert PartAt(v, [h] + hops) == PartAt(below, hops);
    assert WarnsAt(v, path, w, [h] + hops);
  }

  lemma {:induction false} WarnsInSomeField(v: Json, path: Path, w: Warning)
    requires v.Obj?
    ensures NamedWarns(v, path, w)
      <==> exists k :: 0 <= k < |v.fields| && FieldWarns(v.fields[k].key, v.fields[k].value, path + [Key(v.fields[k].key)], w)
  {
    hide WarnsIn;
    if NamedWarns(v, path, w) {
      var hops: seq<Hop> :| WarnsAt(v, path, w, hops);
      if hops == [] {
        var k :| 0 <= k < |v.fields| && v.fields[k].key in {"entity", "entities"} && WarnsIn(v.fields[k].value, path + [Key(v.fields[k].key)], w);
        assert FieldWarns(v.fields[k].key, v.fields[k].value, path + [Key(v.fields[k].key)], w);
      } else {
        FieldOfHops(v, path, w, hops);
      }
    }
    if k :| 0 <= k < |v.fields| && FieldWarns(v.fields[k].key, v.fields[k].value, path + [Key(v.fields[k].key)], w) {
      FieldIsWarned(v, path, w, k);
    }
  }

  lemma {:induction false} FieldOfHops(v: Json, path: Path, w: Warning, hops: seq<Hop>)
    requires v.Obj? && WarnsAt(v, path, w, hops) && hops != []
    ensures exists k :: 0 <= k < |v.fields| && FieldWarns(v.fields[k].key, v.fields[k].value, path + [Key(v.fields[k].key)], w)
  {
    hide KeyWarns;
    var k := hops[0].field;
    var value, at := v.fields[k].value, path + [Key(v.fields[k].key)];
    if hops[0].Into? {
      assert WarnsAt(value, at, w, hops[1..]);
    } else {
      assert WarnsAt(value.items[hops[0].index], at + [At(hops[0].index)], w, hops[1..]);
    }
    assert FieldWarns(v.fields[k].key, value, at, w);
  }

  lemma {:induction false} FieldIsWarned(v: Json, path: Path, w: Warning, k: nat)
    requires v.Obj? && k < |v.fields| && FieldWarns(v.fields[k].key, v.fields[k].value, path + [Key(v.fields[k].key)], w)
    ensures NamedWarns(v, path, w)
  {
    hide NamedWarns;
    var value, at := v.fields[k].value, path + [Key(v.fields[k].key)];
    if IsEntityKey(v.fields[k].key) {
      KeyIsWarned(v, path, w, k);
    } else if value.List? {
      var i :| 0 <= i < |value.items| && NamedWarns(value.items[i], at + [At(i)], w);
      NamedWarnsBelow(v, path, w, IntoItem(k, i), value.items[i], at + [At(i)]);
    } else {
      NamedWarnsBelow(v, path, w, Into(k), value, at);
    }
  }

  lemma {:induction false} KeyIsWarned(v: Json, path: Path, w: Warning, k: nat)
    requires v.Obj? && k < |v.fields| && v.fields[k].key in {"entity", "entities"} && WarnsIn(v.fields[k].value, path + [Key(v.fields[k].key)], w)
    ensures NamedWarns(v, path, w)
  {
    hide WarnsIn;
    assert WarnsAt(v, path, w, []);
  }

  lemma {:induction false} NamedWarnsExactly(v: Json, path: Path, w: Warning)
    ensures w in NamedWarnings(v, path) <==> NamedWarns(v, path, w)
    decreases v, 2, 0
  {
    hide NamedWarns;
    if v.Obj? {
      FieldsWarnExactly(v, path, |v.fields|, w);
      WarnsInSomeField(v, path, w);
    } else {
      NothingWarns(v, path, w);
    }
  }

  lemma {:induction false} NothingWarns(v: Json, path: Path, w: Warning)
    requires !v.Obj?
    ensures !NamedWarns(v, path, w)
  {
  }

  lemma {:induction false} FieldsWarnExactly(v: Json, path: Path, n: nat, w: Warning)
    requires v.Obj? && n <= |v.fields|
    ensures w in FieldsWarnings(v, path, n)
      <==> exists k :: 0 <= k < n && FieldWarns(v.fields[k].key, v.fields[k].value, path + [Key(v.fields[k].key)], w)
    decreases v, 1, n
  {
    hide FieldWarns, FieldWarnings;
    if n > 0 {
      FieldsWarnExactly(v, path, n - 1, w);
      FieldWarnsExactly(v.fields[n - 1].key, v.fields[n - 1].value, path + [Key(v.fields[n - 1].key)], w);
    }
  }

  lemma {:induction false} FieldWarnsExactly(key: string, value: Json, path: Path, w: Warning)
    ensures w in FieldWarnings(key, value, path) <==> FieldWarns(key, value, path, w)
    decreases value, 3, 0
  {
    hide NamedWarns, NamedWarnings, WarnsIn, ValueWarnings;
    if IsEntityKey(key) {
      ValueWarnsExactly(value, path, w);
    } else if !IsChildKey(key) {
      if value.List? {
        NestedWarnExactly(value, path, |value.items|, w);
      } else {
        NamedWarnsExactly(value, path, w);
      }
    }
  }

  lemma {:induction false} NestedWarnExactly(v: Json, path: Path, n: nat, w: Warning)
    requires v.List? && n <= |v.items|
    ensures w in NestedWarnings(v, path, n) <==> exists i :: 0 <= i < n && NamedWarns(v.items[i], path + [At(i)], w)
    decreases v, 0, n
  {
    hide NamedWarns, NamedWarnings;
    if n > 0 {
      NestedWarnExactly(v, path, n - 1, w);
      NamedWarnsExactly(v.items[n - 1], path + [At(n - 1)], w);
    }
  }

  // ----- Cards and views -----

  /** What a card is warned about itself: that it is no mapping, that it is custom, filtered, dynamic or templated, and whatever
      cannot be resolved under its entity keys or as its camera image. */
  ghost predicate CardWarns(card: Json, path: Path, w: Warning) {
    if !card.Obj? then w == Warning(path, CardNotObject)
    else
      var t := Shown(Member(card, "type"), "unknown");
      || (w == Warning(path, CustomCard) && "custom:" <= t)
      || (w == Warning(path, AutoEntities) && Holds(t, "auto-entities"))
      || (w == Warning(path, Dynamic) && t in {"area", "tile", "weather", "weather-forecast"})
      || (w == Warning(path, TemplateContent)
          && exists i :: 0 <= i < |card.fields| && card.fields[i].value.Str? && Holds(card.fields[i].value.text, "{{"))
      || NamedWarns(card, path, w)
      || (t in {"camera", "picture-glance", "picture-entity"} && WarnsIn(Member(card, "camera_image"), path + [Key("camera_image")], w))
  }

  lemma {:induction false} TemplateExactly(card: Json)
    requires card.Obj?
    ensures HasTemplate(card) <==> exists i :: 0 <= i < |card.fields| && card.fields[i].value.Str? && Holds(card.fields[i].value.text, "{{")
  {
    hide Contains, Holds;
    forall i | 0 <= i < |card.fields| && card.fields[i].value.Str?
      ensures Contains(card.fields[i].value.text, "{{") <==> Holds(card.fields[i].value.text, "{{")
    {
      HoldsExactly(card.fields[i].value.text, "{{");
    }
  }

  lemma {:induction false} CardWarnsExactly(card: Json, path: Path, w: Warning)
    ensures w in OwnWarnings(card, path) <==> CardWarns(card, path, w)
  {
    hide NamedWarns, NamedWarnings, WarnsIn, ValueWarnings, Contains, Holds, HasTemplate, Shown, TextOr;
    if card.Obj? {
      ShownIs(Member(card, "type"), "unknown");
      HoldsExactly(CardType(card), "auto-entities");
      TemplateExactly(card);
      NamedWarnsExactly(card, path, w);
      ValueWarnsExactly(Member(card, "camera_image"), path + [Key("camera_image")], w);
    }
  }

  predicate HasViews(config: Json) {
    config.Obj? && Member(config, "views").List?
  }

  /** What is wrong with the views: there is no list of them, the selected one is not in it, or a harvested one is no mapping. */
  predicate ViewsWarn(config: Json, viewIndex: Option<int>, w: Warning) {
    var n := if HasViews(config) then |Member(config, "views").items| else 0;
    || (config.Obj? && !HasViews(config) && w == Warning([Key("views")], NoViews))
    || (viewIndex.Some? && !(0 <= viewIndex.value < n) && w == Warning([Key("views")], ViewNotFound(viewIndex.value)))
    || exists i :: 0 <= i < n && (viewIndex.None? || viewIndex.value == i) && !Member(config, "views").items[i].Obj?
         && w == Warning([Key("views"), At(i)], ViewNotObject)
  }

  lemma {:induction false} ViewsWarnExactly(config: Json, viewIndex: Option<int>, w: Warning)
    ensures w in ConfigWarnings(config, viewIndex) <==> ViewsWarn(config, viewIndex, w)
  {
    hide ViewWarnings;
    var views, selected := Views(config), Selected(config, viewIndex);
    ViewWarningsAre(views, selected, w);
    if i :| 0 <= i < |views| && (viewIndex.None? || viewIndex.value == i) && !views[i].Obj? && w == Warning([Key("views"), At(i)], ViewNotObject) {
      assert selected[if viewIndex.None? then i else 0] == i;
    }
  }

  /** A harvest gives exactly the warnings about the views and about each card it visits. */
  lemma {:induction false} WarnsExactly(config: Json, viewIndex: Option<int>, w: Warning)
    ensures w in AllWarnings(config, viewIndex)
      <==> ViewsWarn(config, viewIndex, w) || exists x :: Visits(config, viewIndex, x) && CardWarns(x.card, x.path, w)
  {
    hide HarvestNodes, Visits, OwnWarnings, CardWarns, ConfigWarnings, ViewsWarn;
    var nodes := HarvestNodes(config, viewIndex);
    ViewsWarnExactly(config, viewIndex, w);
    forall x
      ensures x in nodes <==> Visits(config, viewIndex, x)
      ensures w in OwnWarnings(x.card, x.path) <==> CardWarns(x.card, x.path, w)
    {
      VisitsExactly(config, viewIndex, x);
      CardWarnsExactly(x.card, x.path, w);
    }
    assert w in WarningsOf(nodes) <==> exists x :: x in nodes && w in OwnWarnings(x.card, x.path);
  }
}
