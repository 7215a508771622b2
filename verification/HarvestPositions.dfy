/** Where the entities of a card stand in it. */
module HarvestPositions {
  import opened Options
  import opened HarvestSpec

  // ----- Texts and fields -----

  predicate IsWord(s: string) {
    s != "" && forall i :: 0 <= i < |s| ==> s[i] in "abcdefghijklmnopqrstuvwxyz0123456789_"
  }

  /** Two words with a dot between them, and maybe a line break at the end. */
  ghost predicate IsEntityId(s: string) {
    exists a, b :: IsWord(a) && IsWord(b) && (s == a + "." + b || s == a + "." + b + "\n")
  }

  lemma {:induction false} WordIsName(s: string)
    ensures IsName(s) <==> IsWord(s)
  {
    forall c: char
      ensures c in "abcdefghijklmnopqrstuvwxyz0123456789_" <==> 'a' <= c <= 'z' || '0' <= c <= '9' || c == '_'
    {
      WordCharacter(c);
    }
  }

  lemma {:induction false} WordCharacter(c: char)
    ensures c in "abcdefghijklmnopqrstuvwxyz0123456789_" <==> 'a' <= c <= 'z' || '0' <= c <= '9' || c == '_'
  {
    assert "abcdefghijklmnopqrstuvwxyz0123456789_" == "abcdefghijklm" + "nopqrstuvwxyz" + "0123456789" + "_";
    LetterOrDigit(c);
  }

  lemma {:induction false} LetterOrDigit(c: char)
    ensures c in "abcdefghijklm" <==> 'a' <= c <= 'm'
    ensures c in "nopqrstuvwxyz" <==> 'n' <= c <= 'z'
    ensures c in "0123456789" <==> '0' <= c <= '9'
  {
    if 'a' <= c <= 'm' {
      assert "abcdefghijklm"[c as int - 'a' as int] == c;
    }
    if 'n' <= c <= 'z' {
      assert "nopqrstuvwxyz"[c as int - 'n' as int] == c;
    }
    if '0' <= c <= '9' {
      assert "0123456789"[c as int - '0' as int] == c;
    }
  }

  lemma {:induction false} WordsMakeEntity(a: string, b: string)
    requires IsWord(a) && IsWord(b)
    ensures IsEntity(a + "." + b) && IsEntity(a + "." + b + "\n")
  {
    hide IsName, IsWord;
    WordIsName(a);
    WordIsName(b);
    var s, t := a + "." + b, a + "." + b + "\n";
    assert s[|a|] == '.' && s[..|a|] == a && s[|a| + 1..] == b;
    assert t[|a|] == '.' && t[..|a|] == a && t[|a| + 1..|t| - 1] == b && t[|t| - 1] == '\n';
  }

  lemma {:induction false} EntityHasWords(s: string, i: nat)
    requires i < |s| && s[i] == '.' && IsName(s[..i])
    requires IsName(s[i + 1..]) || (s[|s| - 1] == '\n' && i + 1 < |s| && IsName(s[i + 1..|s| - 1]))
    ensures IsEntityId(s)
  {
    hide IsName, IsWord;
    var a, b, short := s[..i], s[i + 1..], s[i + 1..|s| - if i + 1 < |s| then 1 else 0];
    WordIsName(a);
    if IsName(b) {
      WordIsName(b);
      assert s == a + "." + b;
    } else {
      WordIsName(short);
      assert s == a + "." + short + "\n";
    }
  }

  /** What counts as an entity id. */
  lemma {:induction false} EntityIdExactly(s: string)
    ensures IsEntity(s) <==> IsEntityId(s)
  {
    hide IsName, IsWord;
    if IsEntity(s) {
      var i :| 0 <= i < |s| && s[i] == '.' && IsName(s[..i])
        && (IsName(s[i + 1..]) || (s[|s| - 1] == '\n' && i + 1 < |s| && IsName(s[i + 1..|s| - 1])));
      EntityHasWords(s, i);
    }
    if IsEntityId(s) {
      var a, b :| IsWord(a) && IsWord(b) && (s == a + "." + b || s == a + "." + b + "\n");
      WordsMakeEntity(a, b);
    }
  }

  /** The first field with a key. */
  predicate IsFirst(fields: seq<Field>, key: string, i: int) {
    0 <= i < |fields| && fields[i].key == key && forall j :: 0 <= j < i ==> fields[j].key != key
  }

  /** A key's value is that of its first field, or nothing. */
  lemma {:induction false} MemberExactly(card: Json, key: string)
    requires card.Obj?
    ensures (forall i :: 0 <= i < |card.fields| ==> card.fields[i].key != key) ==> Member(card, key) == Null
    ensures forall i :: IsFirst(card.fields, key, i) ==> Member(card, key) == card.fields[i].value
  {
    LookupExactly(card.fields, key);
  }

  lemma {:induction false} LookupExactly(fields: seq<Field>, key: string)
    ensures (forall i :: 0 <= i < |fields| ==> fields[i].key != key) ==> Lookup(fields, key) == Null
    ensures forall i :: IsFirst(fields, key, i) ==> Lookup(fields, key) == fields[i].value
    decreases |fields|
  {
    if fields != [] {
      LookupExactly(fields[1..], key);
      forall i | IsFirst(fields, key, i)
        ensures Lookup(fields, key) == fields[i].value
      {
        if i > 0 {
          assert fields[1..][i - 1] == fields[i];
          assert forall j :: 0 <= j < i - 1 ==> fields[1..][j] == fields[j + 1];
          assert IsFirst(fields[1..], key, i - 1);
        }
      }
      assert forall i :: 0 <= i < |fields[1..]| ==> fields[1..][i] == fields[i + 1];
    }
  }

  /** The children under a key: the items of a list, nothing for no value, and any other value by itself. */
  lemma {:induction false} ChildrenExactly(card: Json, key: string)
    requires card.Obj?
    ensures var v := Member(card, key); Children(card, key) == (if v.Null? then [] else if v.List? then v.items else [v])
  {
  }

  /** The type of a card is its text, or that of a number, unless that is empty or false. */
  ghost predicate HasType(card: Json, t: string)
    requires card.Obj?
  {
    var v := Member(card, "type"); t != "" && ((v.Str? && v.text == t) || (v.Scalar? && v.truth && v.shown == t))
  }

  lemma {:induction false} TypeExactly(card: Json, t: string)
    requires card.Obj? && t != "unknown" && t != "[]" && t != "{}"
    ensures HasType(card, t) ==> CardType(card) == t
    ensures t != "" ==> (CardType(card) == t <==> HasType(card, t))
  {
  }

  // ----- Inside the value of an entity key -----

  /** One step down: into an item of a list, or into the `entity` of a mapping. */
  datatype Step = ListItem(index: nat) | ItsEntity

  function ValueAt(v: Json, steps: seq<Step>): Option<Json>
    decreases |steps|
  {
    if steps == [] then Some(v)
    else
      match steps[0]
      case ListItem(i) => if v.List? && i < |v.items| then ValueAt(v.items[i], steps[1..]) else None
      case ItsEntity => if v.Obj? then ValueAt(Member(v, "entity"), steps[1..]) else None
  }

  ghost predicate StandsIn(e: string, v: Json) {
    exists steps: seq<Step> :: ValueAt(v, steps) == Some(Str(e))
  }

  lemma {:induction false} StandsBelow(e: string, v: Json, s: Step, below: Json)
    requires (s.ListItem? && v.List? && s.index < |v.items| && below == v.items[s.index]) || (s.ItsEntity? && v.Obj? && below == Member(v, "entity"))
    requires StandsIn(e, below)
    ensures StandsIn(e, v)
  {
    var steps: seq<Step> :| ValueAt(below, steps) == Some(Str(e));
    assert ([s] + steps)[1..] == steps;
    assert ValueAt(v, [s] + steps) == Some(Str(e));
  }

  /** The entities of a value are the texts that name one, at any depth of lists and of the `entity` of mappings. */
  lemma {:induction false} RefsStandIn(e: string, v: Json)
    ensures e in ValueRefs(v) <==> IsEntityId(e) && StandsIn(e, v)
    decreases v, 1, 0
  {
    hide IsEntity, IsEntityId;
    EntityIdExactly(e);
    match v
    case Str(s) =>
      assert ValueAt(v, []) == Some(v);
      if StandsIn(e, v) {
        var steps: seq<Step> :| ValueAt(v, steps) == Some(Str(e));
      }
    case List(items) =>
      ItemsStandIn(e, v, |items|);
      StandsInItem(e, v);
    case Obj(fields) => EntityStandsIn(e, v);
    case _ =>
  }

  lemma {:induction false} EntityStandsIn(e: string, v: Json)
    requires v.Obj?
    ensures e in ValueRefs(v) <==> IsEntityId(e) && StandsIn(e, v)
    decreases v, 0, 0
  {
    hide IsEntity, IsEntityId;
    var m := Member(v, "entity");
    if m != Null {
      RefsStandIn(e, m);
      if StandsIn(e, m) {
        StandsBelow(e, v, ItsEntity, m);
      }
    }
    MissingIsNull(v, "entity");
    if StandsIn(e, v) {
      var steps: seq<Step> :| ValueAt(v, steps) == Some(Str(e));
      assert ValueAt(m, steps[1..]) == Some(Str(e));
    }
  }

  lemma {:induction false} MissingIsNull(v: Json, key: string)
    requires v.Obj?
    ensures !HasKey(v.fields, key) ==> Member(v, key) == Null
  {
    LookupIsField(v.fields, key);
  }

  lemma {:induction false} ItemsStandIn(e: string, v: Json, n: nat)
    requires v.List? && n <= |v.items|
    ensures e in ItemRefs(v, n) <==> IsEntityId(e) && exists i :: 0 <= i < n && StandsIn(e, v.items[i])
    decreases v, 0, n
  {
    hide IsEntityId, ValueRefs, StandsIn;
    if n > 0 {
      ItemsStandIn(e, v, n - 1);
      RefsStandIn(e, v.items[n - 1]);
    }
  }

  lemma {:induction false} StandsInItem(e: string, v: Json)
    requires v.List?
    ensures StandsIn(e, v) <==> exists i :: 0 <= i < |v.items| && StandsIn(e, v.items[i])
  {
    if StandsIn(e, v) {
      var steps: seq<Step> :| ValueAt(v, steps) == Some(Str(e));
      assert ValueAt(v.items[steps[0].index], steps[1..]) == Some(Str(e));
      assert StandsIn(e, v.items[steps[0].index]);
    }
    if i :| 0 <= i < |v.items| && StandsIn(e, v.items[i]) {
      StandsBelow(e, v, ListItem(i), v.items[i]);
    }
  }

  // ----- Down to an entity key -----

  /** One step down in a card: into the value of a field, or into an item of its list. */
  datatype Hop = Into(field: nat) | IntoItem(field: nat, index: nat)

  predicate Passable(v: Json, field: nat) {
    v.Obj? && field < |v.fields| && v.fields[field].key !in {"card", "cards", "elements", "entity", "entities"}
  }

  /** Where hops lead that enter no nested card and no entity key. */
  function PartAt(v: Json, hops: seq<Hop>): Option<Json>
    decreases |hops|
  {
    if hops == [] then Some(v)
    else if !Passable(v, hops[0].field) then None
    else
      var value := v.fields[hops[0].field].value;
      match hops[0]
      case Into(_) => if value.List? then None else PartAt(value, hops[1..])
      case IntoItem(_, i) => if value.List? && i < |value.items| then PartAt(value.items[i], hops[1..]) else None
  }

  ghost predicate HoldsUnderKey(part: Json, e: string) {
    && part.Obj? && IsEntityId(e)
    && exists k :: 0 <= k < |part.fields| && part.fields[k].key in {"entity", "entities"} && StandsIn(e, part.fields[k].value)
  }

  ghost predicate NamedIn(e: string, v: Json) {
    exists hops: seq<Hop> :: PartAt(v, hops).Some? && HoldsUnderKey(PartAt(v, hops).value, e)
  }

  ghost predicate NamedInField(e: string, key: string, value: Json) {
    if IsChildKey(key) then false
    else if IsEntityKey(key) then e in ValueRefs(value)
    else if value.List? then exists i :: 0 <= i < |value.items| && NamedIn(e, value.items[i])
    else NamedIn(e, value)
  }

  lemma {:induction false} NamedBelow(e: string, v: Json, h: Hop, below: Json)
    requires Passable(v, h.field) && NamedIn(e, below)
    requires var value := v.fields[h.field].value;
      if h.Into? then !value.List? && below == value else value.List? && h.index < |value.items| && below == value.items[h.index]
    ensures NamedIn(e, v)
  {
    hide HoldsUnderKey;
    var hops: seq<Hop> :| PartAt(below, hops).Some? && HoldsUnderKey(PartAt(below, hops).value, e);
    assert ([h] + hops)[1..] == hops;
    assert PartAt(v, [h] + hops) == PartAt(below, hops);
  }

  /** An entity is named in a mapping exactly if it is named in one of its fields. */
  lemma {:induction false} NamedInSomeField(e: string, v: Json)
    requires v.Obj?
    ensures NamedIn(e, v) <==> exists k :: 0 <= k < |v.fields| && NamedInField(e, v.fields[k].key, v.fields[k].value)
  {
    hide ValueRefs, StandsIn, IsEntityId;
    if NamedIn(e, v) {
      var hops: seq<Hop> :| PartAt(v, hops).Some? && HoldsUnderKey(PartAt(v, hops).value, e);
      if hops == [] {
        var k :| 0 <= k < |v.fields| && v.fields[k].key in {"entity", "entities"} && StandsIn(e, v.fields[k].value);
        RefsStandIn(e, v.fields[k].value);
        assert NamedInField(e, v.fields[k].key, v.fields[k].value);
      } else {
        var k := hops[0].field;
        var value := v.fields[k].value;
        var below := if hops[0].Into? then value else value.items[hops[0].index];
        assert PartAt(below, hops[1..]) == PartAt(v, hops);
        assert NamedIn(e, below);
        assert NamedInField(e, v.fields[k].key, value);
      }
    }
    if k :| 0 <= k < |v.fields| && NamedInField(e, v.fields[k].key, v.fields[k].value) {
      FieldIsNamed(e, v, k);
    }
  }

  lemma {:induction false} FieldIsNamed(e: string, v: Json, k: nat)
    requires v.Obj? && k < |v.fields| && NamedInField(e, v.fields[k].key, v.fields[k].value)
    ensures NamedIn(e, v)
  {
    hide ValueRefs, NamedIn;
    var value := v.fields[k].value;
    if IsEntityKey(v.fields[k].key) {
      HereIsNamed(e, v, k);
    } else if value.List? {
      var i :| 0 <= i < |value.items| && NamedIn(e, value.items[i]);
      NamedBelow(e, v, IntoItem(k, i), value.items[i]);
    } else {
      NamedBelow(e, v, Into(k), value);
    }
  }

  lemma {:induction false} HereIsNamed(e: string, v: Json, k: nat)
    requires v.Obj? && k < |v.fields| && IsEntityKey(v.fields[k].key) && e in ValueRefs(v.fields[k].value)
    ensures NamedIn(e, v)
  {
    RefsStandIn(e, v.fields[k].value);
    assert PartAt(v, []) == Some(v) && HoldsUnderKey(v, e);
  }

  /** The entities that the walk finds in a card itself are exactly those that stand under an entity key which is reached
      through fields and list items without entering a nested card. */
  lemma {:induction false} NamedByPosition(v: Json, e: string)
    ensures e in NamedRefs(v) <==> NamedIn(e, v)
    decreases v, 2, 0
  {
    hide ValueRefs, NamedIn;
    if v.Obj? {
      FieldsByPosition(v, |v.fields|, e);
      NamedInSomeField(e, v);
    } else {
      NothingNamedIn(v, e);
    }
  }

  lemma {:induction false} NothingNamedIn(v: Json, e: string)
    requires !v.Obj?
    ensures !NamedIn(e, v)
  {
  }

  lemma {:induction false} FieldsByPosition(v: Json, n: nat, e: string)
    requires v.Obj? && n <= |v.fields|
    ensures e in FieldsRefs(v, n) <==> exists k :: 0 <= k < n && NamedInField(e, v.fields[k].key, v.fields[k].value)
    decreases v, 1, n
  {
    hide NamedInField, FieldRefs;
    if n > 0 {
      FieldsByPosition(v, n - 1, e);
      FieldByPosition(v.fields[n - 1].key, v.fields[n - 1].value, e);
    }
  }

  lemma {:induction false} FieldByPosition(key: string, value: Json, e: string)
    ensures e in FieldRefs(key, value) <==> NamedInField(e, key, value)
    decreases value, 3, 0
  {
    hide ValueRefs, NamedIn, NamedRefs;
    if !IsChildKey(key) && !IsEntityKey(key) {
      if value.List? {
        NestedByPosition(value, |value.items|, e);
      } else {
        NamedByPosition(value, e);
      }
    }
  }

  lemma {:induction false} NestedByPosition(v: Json, n: nat, e: string)
    requires v.List? && n <= |v.items|
    ensures e in NestedRefs(v, n) <==> exists i :: 0 <= i < n && NamedIn(e, v.items[i])
    decreases v, 0, n
  {
    hide NamedIn, NamedRefs;
    if n > 0 {
      NestedByPosition(v, n - 1, e);
      NamedByPosition(v.items[n - 1], e);
    }
  }
}
