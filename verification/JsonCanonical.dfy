/** What makes the printed form canonical: one text per value up to the order of object keys,
    and when the two ends print the same text. */
module JsonCanonical {
  import opened CanonicalJson
  import opened JsonReader
  import opened JsonReadBack
  import Utf8

  // ----- Both key orders are strict total orders -----

  lemma {:induction false} SamePoint(a: Text, b: Text)
    requires a != [] && b != [] && Utf8.CodePointAt(a, 0) == Utf8.CodePointAt(b, 0)
    ensures var w := Utf8.Width(Utf8.CodePointAt(a, 0));
      w <= |a| && w <= |b| && a[..w] == b[..w]
  {
    Utf8.FromCodePointAt(a);
    Utf8.FromCodePointAt(b);
  }

  lemma {:induction false} LessTotal(order: KeyOrder, a: Text, b: Text)
    requires a != b
    ensures Less(order, a, b) || Less(order, b, a)
    decreases |a|
  {
    if a != [] && b != [] {
      var w := if order.CodeUnits? then 1 else Utf8.Width(Utf8.CodePointAt(a, 0));
      if order.CodeUnits? && a[0] == b[0] {
        assert a == [a[0]] + a[1..] && b == [b[0]] + b[1..];
        LessTotal(order, a[1..], b[1..]);
      }
      if order.CodePoints? && Utf8.CodePointAt(a, 0) == Utf8.CodePointAt(b, 0) {
        SamePoint(a, b);
        assert a == a[..w] + a[w..] && b == b[..w] + b[w..];
        LessTotal(order, a[w..], b[w..]);
      }
    }
  }

  lemma {:induction false} LessAsymmetric(order: KeyOrder, a: Text, b: Text)
    requires Less(order, a, b)
    ensures !Less(order, b, a) && a != b
    decreases |a|
  {
    if a != [] {
      if order.CodeUnits? && a[0] == b[0] {
        LessAsymmetric(order, a[1..], b[1..]);
      }
      if order.CodePoints? && Utf8.CodePointAt(a, 0) == Utf8.CodePointAt(b, 0) {
        var w := Utf8.Width(Utf8.CodePointAt(a, 0));
        LessAsymmetric(order, a[w..], b[w..]);
      }
    }
  }

  lemma {:induction false} LessTransitive(order: KeyOrder, a: Text, b: Text, c: Text)
    requires Less(order, a, b) && Less(order, b, c)
    ensures Less(order, a, c)
    decreases |a|
  {
    if a != [] {
      if order.CodeUnits? && a[0] == b[0] == c[0] {
        LessTransitive(order, a[1..], b[1..], c[1..]);
      }
      if order.CodePoints? && Utf8.CodePointAt(a, 0) == Utf8.CodePointAt(b, 0) == Utf8.CodePointAt(c, 0) {
        var w := Utf8.Width(Utf8.CodePointAt(a, 0));
        LessTransitive(order, a[w..], b[w..], c[w..]);
      }
    }
  }

  // ----- Sorting -----

  predicate Ascending(order: KeyOrder, ms: seq<Member>) {
    forall i, j :: 0 <= i < j < |ms| ==> Less(order, ms[i].key, ms[j].key)
  }

  predicate Distinct(ms: seq<Member>) {
    forall i, j :: 0 <= i < j < |ms| ==> ms[i].key != ms[j].key
  }

  lemma {:induction false} InsertKeeps(order: KeyOrder, m: Member, ms: seq<Member>)
    ensures forall x :: x in Insert(order, m, ms) <==> x == m || x in ms
  {
    forall x
      ensures x in Insert(order, m, ms) <==> x == m || x in ms
    {
      assert x in multiset(Insert(order, m, ms)) <==> x in multiset(ms) + multiset{m};
    }
  }

  lemma {:induction false} SortKeeps(order: KeyOrder, ms: seq<Member>)
    ensures forall x :: x in Sort(order, ms) <==> x in ms
  {
    forall x
      ensures x in Sort(order, ms) <==> x in ms
    {
      assert x in multiset(Sort(order, ms)) <==> x in multiset(ms);
    }
  }

  lemma {:induction false} InsertAscends(order: KeyOrder, m: Member, ms: seq<Member>)
    requires Ascending(order, ms) && forall x :: x in ms ==> x.key != m.key
    ensures Ascending(order, Insert(order, m, ms))
    decreases |ms|
  {
    hide Less;
    if ms == [] {
    } else if Less(order, ms[0].key, m.key) {
      var tail := Insert(order, m, ms[1..]);
      InsertAscends(order, m, ms[1..]);
      InsertKeeps(order, m, ms[1..]);
      forall j | 0 <= j < |tail|
        ensures Less(order, ms[0].key, tail[j].key)
      {
        assert tail[j] in tail;
        if tail[j] != m {
          assert tail[j] in ms[1..];
        }
      }
    } else {
      LessTotal(order, ms[0].key, m.key);
      forall j | 0 <= j < |ms|
        ensures Less(order, m.key, ms[j].key)
      {
        if j > 0 {
          LessTransitive(order, m.key, ms[0].key, ms[j].key);
        }
      }
    }
  }

  lemma {:induction false} SortAscends(order: KeyOrder, ms: seq<Member>)
    requires Distinct(ms)
    ensures Ascending(order, Sort(order, ms))
    decreases |ms|
  {
    if ms != [] {
      SortAscends(order, ms[1..]);
      SortKeeps(order, ms[1..]);
      forall x | x in Sort(order, ms[1..])
        ensures x.key != ms[0].key
      {
        assert x in ms[1..];
      }
      InsertAscends(order, ms[0], Sort(order, ms[1..]));
    }
  }

  lemma {:induction false} SortOfAscending(order: KeyOrder, ms: seq<Member>)
    requires Ascending(order, ms)
    ensures Sort(order, ms) == ms
    decreases |ms|
  {
    if ms != [] {
      SortOfAscending(order, ms[1..]);
      if |ms| > 1 {
        LessAsymmetric(order, ms[0].key, ms[1].key);
      }
      assert ms == [ms[0]] + ms[1..];
    }
  }

  function KeySet(ms: seq<Member>): set<Text> {
    set i | 0 <= i < |ms| :: ms[i].key
  }

  /** The first key of an ascending list is below its other keys. */
  lemma {:induction false} HeadIsLeast(order: KeyOrder, a: seq<Member>, k: Text)
    requires Ascending(order, a) && k in KeySet(a)
    ensures a != [] && (k == a[0].key || Less(order, a[0].key, k))
  {
    hide Less;
    var i :| 0 <= i < |a| && a[i].key == k;
  }

  lemma {:induction false} SameHead(order: KeyOrder, a: seq<Member>, b: seq<Member>)
    requires Ascending(order, a) && Ascending(order, b) && KeySet(a) == KeySet(b) && a != []
    ensures b != [] && a[0].key == b[0].key
  {
    hide Less;
    assert a[0].key in KeySet(a);
    HeadIsLeast(order, b, a[0].key);
    assert b[0].key in KeySet(b);
    HeadIsLeast(order, a, b[0].key);
    if a[0].key != b[0].key {
      LessAsymmetric(order, b[0].key, a[0].key);
    }
  }

  lemma {:induction false} TailKeys(order: KeyOrder, a: seq<Member>)
    requires Ascending(order, a) && a != []
    ensures KeySet(a[1..]) == KeySet(a) - {a[0].key}
  {
    hide Less;
    forall i | 0 < i < |a|
      ensures a[i].key != a[0].key
    {
      LessAsymmetric(order, a[0].key, a[i].key);
    }
    forall k | k in KeySet(a) && k != a[0].key
      ensures k in KeySet(a[1..])
    {
      var i :| 0 <= i < |a| && a[i].key == k;
      assert a[1..][i - 1].key == k;
    }
    forall k | k in KeySet(a[1..])
      ensures k in KeySet(a) && k != a[0].key
    {
      var i :| 0 <= i < |a[1..]| && a[1..][i].key == k;
      assert a[i + 1].key == k;
    }
  }

  /** Two ascending lists with the same keys have them at the same places. */
  lemma {:induction false} AscendingSameKeys(order: KeyOrder, a: seq<Member>, b: seq<Member>)
    requires Ascending(order, a) && Ascending(order, b) && KeySet(a) == KeySet(b)
    ensures |a| == |b| && forall i :: 0 <= i < |a| ==> a[i].key == b[i].key
    decreases |a|
  {
    hide Less;
    assert b != [] ==> b[0].key in KeySet(b);
    if a == [] {
    } else {
      SameHead(order, a, b);
      TailKeys(order, a);
      TailKeys(order, b);
      AscendingSameKeys(order, a[1..], b[1..]);
    }
  }

  lemma {:induction false} SortKeepsKeys(order: KeyOrder, ms: seq<Member>)
    ensures KeySet(Sort(order, ms)) == KeySet(ms)
  {
    var sorted := Sort(order, ms);
    SortKeeps(order, ms);
    forall k | k in KeySet(sorted)
      ensures k in KeySet(ms)
    {
      var i :| 0 <= i < |sorted| && sorted[i].key == k;
      assert sorted[i] in ms;
    }
    forall k | k in KeySet(ms)
      ensures k in KeySet(sorted)
    {
      var i :| 0 <= i < |ms| && ms[i].key == k;
      assert ms[i] in sorted;
    }
  }

  // ----- One text per value -----

  /** No object has two members with the same key. */
  predicate DistinctKeys(v: Json)
    decreases v
  {
    match v
    case Arr(items) => forall x :: x in items ==> DistinctKeys(x)
    case Obj(members) => Distinct(members) && forall m :: m in members ==> DistinctKeys(m.value)
    case _ => true
  }

  /** Equal up to the order of object members. */
  predicate Same(v: Json, w: Json)
    decreases v
  {
    match v
    case Arr(items) =>
      w.Arr? && |items| == |w.items| && forall i :: 0 <= i < |items| ==> Same(items[i], w.items[i])
    case Obj(members) =>
      && w.Obj?
      && KeySet(members) == KeySet(w.members)
      && forall m, n :: m in members && n in w.members && m.key == n.key ==> Same(m.value, n.value)
    case _ => v == w
  }

  lemma {:induction false} KeyNamesMember(ms: seq<Member>, m: Member, n: Member)
    requires Distinct(ms) && m in ms && n in ms && m.key == n.key
    ensures m == n
  {
  }

  /** Two values have the same normal form exactly when they are equal up to member order. */
  lemma {:induction false} NormalizeSame(order: KeyOrder, v: Json, w: Json)
    requires DistinctKeys(v) && DistinctKeys(w)
    ensures Normalize(order, v) == Normalize(order, w) <==> Same(v, w)
    decreases v, 1
  {
    match v
    case Arr(items) =>
      if w.Arr? && |items| == |w.items| {
        forall i | 0 <= i < |items|
          ensures Normalize(order, items[i]) == Normalize(order, w.items[i]) <==> Same(items[i], w.items[i])
        {
          assert items[i] in items && w.items[i] in w.items;
          NormalizeSame(order, items[i], w.items[i]);
        }
        var nv, nw := Normalize(order, v).items, Normalize(order, w).items;
        assert nv == nw <==> forall i :: 0 <= i < |items| ==> nv[i] == nw[i];
      }
    case Obj(members) =>
      if w.Obj? {
        if Normalize(order, v) == Normalize(order, w) {
          EqualNormalsAreSame(order, v, w);
        }
        if Same(v, w) {
          SameHaveEqualNormals(order, v, w);
        }
      }
    case _ =>
  }

  lemma {:induction false} EqualNormalsMatch(order: KeyOrder, v: Json, w: Json)
    requires v.Obj? && w.Obj? && Normalize(order, v) == Normalize(order, w)
    ensures var a, b := Sort(order, v.members), Sort(order, w.members);
      && |a| == |b|
      && (forall i :: 0 <= i < |a| ==> a[i].key == b[i].key && Normalize(order, a[i].value) == Normalize(order, b[i].value))
    ensures KeySet(v.members) == KeySet(w.members)
  {
    hide Less, Sort;
    var a, b := Sort(order, v.members), Sort(order, w.members);
    SortKeepsKeys(order, v.members);
    SortKeepsKeys(order, w.members);
    assert |a| == |b|;
    forall i | 0 <= i < |a|
      ensures a[i].key == b[i].key && Normalize(order, a[i].value) == Normalize(order, b[i].value)
    {
      assert Normalize(order, v).members[i] == Normalize(order, w).members[i];
    }
    assert KeySet(a) == KeySet(b);
  }

  lemma {:induction false} EqualNormalsAreSame(order: KeyOrder, v: Json, w: Json)
    requires v.Obj? && w.Obj? && DistinctKeys(v) && DistinctKeys(w) && Normalize(order, v) == Normalize(order, w)
    ensures Same(v, w)
    decreases v, 0
  {
    hide Less, Sort, Normalize, KeySet;
    var a, b := Sort(order, v.members), Sort(order, w.members);
    SortKeeps(order, v.members);
    SortKeeps(order, w.members);
    EqualNormalsMatch(order, v, w);
    forall m, n | m in v.members && n in w.members && m.key == n.key
      ensures Same(m.value, n.value)
    {
      assert m in a;
      var i :| 0 <= i < |a| && a[i] == m;
      assert b[i] in w.members;
      KeyNamesMember(w.members, n, b[i]);
      NormalizeSame(order, m.value, n.value);
    }
  }

  lemma {:induction false} SameHaveEqualNormals(order: KeyOrder, v: Json, w: Json)
    requires v.Obj? && w.Obj? && DistinctKeys(v) && DistinctKeys(w) && Same(v, w)
    ensures Normalize(order, v) == Normalize(order, w)
    decreases v, 0
  {
    hide Less;
    var a, b := Sort(order, v.members), Sort(order, w.members);
    SortKeeps(order, v.members);
    SortKeeps(order, w.members);
    SortKeepsKeys(order, v.members);
    SortKeepsKeys(order, w.members);
    SortAscends(order, v.members);
    SortAscends(order, w.members);
    AscendingSameKeys(order, a, b);
    var nv, nw := Normalize(order, v).members, Normalize(order, w).members;
    forall i | 0 <= i < |a|
      ensures nv[i] == nw[i]
    {
      assert a[i] in v.members && b[i] in w.members;
      NormalizeSame(order, a[i].value, b[i].value);
    }
    assert nv == nw;
  }

  /** Printing sees nothing but the normal form. */
  lemma {:induction false} PrintOfNormal(order: KeyOrder, v: Json)
    requires DistinctKeys(v)
    ensures Print(order, Normalize(order, v)) == Print(order, v)
    decreases v, 1, 0
  {
    hide Less, AsciiJsonString, IntText, PrintItems, PrintMembers, NormalizeItems, NormalizeMembers, Insert;
    match v
    case Arr(items) => PrintItemsOfNormal(order, items, v, Normalize(order, v));
    case Obj(members) =>
      var sorted := Sort(order, members);
      SortKeeps(order, members);
      SortAscends(order, members);
      var n := Normalize(order, v);
      assert Ascending(order, n.members);
      SortOfAscending(order, n.members);
      PrintMembersOfNormal(order, sorted, v, n);
    case _ =>
  }

  lemma {:induction false} PrintItemsOfNormal(order: KeyOrder, items: seq<Json>, owner: Json, normal: Json)
    requires forall i :: 0 <= i < |items| ==> items[i] < owner && DistinctKeys(items[i])
    requires forall i :: 0 <= i < |items| ==> NormalizeItems(order, items, owner)[i] < normal
    ensures PrintItems(order, NormalizeItems(order, items, owner), normal) == PrintItems(order, items, owner)
    decreases owner, 0, |items|
  {
    hide Print;
    if items != [] {
      PrintOfNormal(order, items[0]);
      var n := NormalizeItems(order, items, owner);
      assert n[1..] == NormalizeItems(order, items[1..], owner);
      PrintItemsOfNormal(order, items[1..], owner, normal);
    }
  }

  lemma {:induction false} PrintMembersOfNormal(order: KeyOrder, ms: seq<Member>, owner: Json, normal: Json)
    requires forall i :: 0 <= i < |ms| ==> ms[i].value < owner && DistinctKeys(ms[i].value)
    requires forall i :: 0 <= i < |ms| ==> NormalizeMembers(order, ms, owner)[i].value < normal
    ensures PrintMembers(order, NormalizeMembers(order, ms, owner), normal) == PrintMembers(order, ms, owner)
    decreases owner, 0, |ms|
  {
    hide Print, AsciiJsonString;
    if ms != [] {
      PrintOfNormal(order, ms[0].value);
      var n := NormalizeMembers(order, ms, owner);
      assert n[1..] == NormalizeMembers(order, ms[1..], owner);
      PrintMembersOfNormal(order, ms[1..], owner, normal);
    }
  }

  /** Two values print alike exactly when they are equal up to the order of object members. */
  lemma {:induction false} PrintsAlike(order: KeyOrder, v: Json, w: Json)
    requires DistinctKeys(v) && DistinctKeys(w)
    ensures Print(order, v) == Print(order, w) <==> Same(v, w)
  {
    hide Print, Normalize, Same, ParseJson, DistinctKeys;
    ReadBack(order, v);
    ReadBack(order, w);
    NormalizeSame(order, v, w);
    PrintOfNormal(order, v);
    PrintOfNormal(order, w);
  }

  // ----- Pure ASCII -----

  predicate Printable(t: Text) {
    forall i :: 0 <= i < |t| ==> 0x20 <= t[i] < 0x7F
  }

  lemma {:induction false} EscapedIsPrintable(s: Text)
    ensures Printable(EscapeUnits(s))
    decreases |s|
  {
    if s != [] {
      EscapedIsPrintable(s[1..]);
      assert Printable(EscapeUnit(s[0]));
    }
  }

  lemma {:induction false} StringIsPrintable(s: Text)
    ensures Printable(AsciiJsonString(s))
  {
    hide AsciiJsonString, EscapeUnits;
    StringIsUnits(s);
    EscapedIsPrintable(s);
  }

  lemma {:induction false} DigitsArePrintable(n: nat)
    ensures Printable(Digits(n))
  {
    if n >= 10 {
      DigitsArePrintable(n / 10);
    }
  }

  /** The text is printable ASCII, so its bytes are its units in any encoding that extends ASCII. */
  lemma {:induction false} PrintIsAscii(order: KeyOrder, v: Json)
    ensures Printable(Print(order, v))
    decreases v, 1, 0
  {
    hide AsciiJsonString, Digits, PrintItems, PrintMembers, Less, Sort;
    match v
    case Num(n) => DigitsArePrintable(if n < 0 then -n else n);
    case Str(s) => StringIsPrintable(s);
    case Arr(items) => ItemsAreAscii(order, items, v);
    case Obj(members) =>
      SortKeeps(order, members);
      var sorted := Sort(order, members);
      assert forall i :: 0 <= i < |sorted| ==> sorted[i] in members;
      MembersAreAscii(order, sorted, v);
    case _ =>
  }

  lemma {:induction false} ItemsAreAscii(order: KeyOrder, items: seq<Json>, owner: Json)
    requires forall i :: 0 <= i < |items| ==> items[i] < owner
    ensures Printable(PrintItems(order, items, owner))
    decreases owner, 0, |items|
  {
    if items != [] {
      hide Print;
      PrintIsAscii(order, items[0]);
      ItemsAreAscii(order, items[1..], owner);
    }
  }

  lemma {:induction false} MembersAreAscii(order: KeyOrder, ms: seq<Member>, owner: Json)
    requires forall i :: 0 <= i < |ms| ==> ms[i].value < owner
    ensures Printable(PrintMembers(order, ms, owner))
    decreases owner, 0, |ms|
  {
    if ms != [] {
      hide Print, AsciiJsonString;
      StringIsPrintable(ms[0].key);
      PrintIsAscii(order, ms[0].value);
      MembersAreAscii(order, ms[1..], owner);
    }
  }

  // ----- The two ends -----

  /** `a` starts with a character above the basic plane and `b` does not, yet `b` has the greater units: its first unit
      is greater than the high surrogate of `a`, or it is that surrogate alone, and a unit from U+E000 on follows. */
  predicate UnitsDisagree(a: Text, b: Text) {
    && |a| >= 2 && b != []
    && Utf8.CodePointAt(a, 0) > 0xFFFF >= Utf8.CodePointAt(b, 0)
    && (b[0] > a[0] || (b[0] == a[0] && |b| > 1 && b[1] >= 0xE000))
  }

  /** What comes first where the keys differ is a character above the basic plane in one key, and greater units in the other. */
  predicate Clash(a: Text, b: Text)
    decreases |a|
  {
    a != [] && b != [] &&
    (var ca, cb := Utf8.CodePointAt(a, 0), Utf8.CodePointAt(b, 0);
     if ca == cb then Clash(a[Utf8.Width(ca)..], b[Utf8.Width(cb)..])
     else UnitsDisagree(a, b) || UnitsDisagree(b, a))
  }

  /** Comparing the units of two different code points, in the client's way. */
  lemma {:induction false} UnitLessAtPoint(a: Text, b: Text)
    requires a != [] && b != []
    requires Utf8.CodePointAt(a, 0) != Utf8.CodePointAt(b, 0)
    ensures var ca, cb := Utf8.CodePointAt(a, 0), Utf8.CodePointAt(b, 0);
      && (UnitLess(a, b) == (ca < cb) <==> !Clash(a, b))
  {
    var ca, cb := Utf8.CodePointAt(a, 0), Utf8.CodePointAt(b, 0);
    if ca > 0xFFFF {
      Utf8.PairSplits(a[0], a[1]);
    }
    if cb > 0xFFFF {
      Utf8.PairSplits(b[0], b[1]);
    }
    if ca > 0xFFFF && cb > 0xFFFF && a[0] == b[0] {
      assert UnitLess(a, b) == UnitLess(a[1..], b[1..]);
      assert a[1..][0] == a[1] && b[1..][0] == b[1];
    }
  }

  lemma {:induction false} UnitLessPastPoint(a: Text, b: Text)
    requires a != [] && b != [] && Utf8.CodePointAt(a, 0) == Utf8.CodePointAt(b, 0)
    ensures var w := Utf8.Width(Utf8.CodePointAt(a, 0));
      w <= |a| && w <= |b| && UnitLess(a, b) == UnitLess(a[w..], b[w..])
  {
    SamePoint(a, b);
    var w := Utf8.Width(Utf8.CodePointAt(a, 0));
    assert a[0] == a[..w][0] == b[..w][0] == b[0];
    if w == 2 {
      assert a[1] == a[..w][1] == b[..w][1] == b[1];
      assert a[1..][1..] == a[2..] && b[1..][1..] == b[2..];
    }
  }

  /** The two orders agree exactly on the keys that do not clash. */
  lemma {:induction false} OrdersAgree(a: Text, b: Text)
    ensures UnitLess(a, b) == PointLess(a, b) <==> !Clash(a, b)
    decreases |a|
  {
    if a != [] && b != [] {
      var ca, cb := Utf8.CodePointAt(a, 0), Utf8.CodePointAt(b, 0);
      if ca == cb {
        UnitLessPastPoint(a, b);
        OrdersAgree(a[Utf8.Width(ca)..], b[Utf8.Width(cb)..]);
      } else {
        UnitLessAtPoint(a, b);
      }
    }
  }

  /** U+10000 against U+FFFF, against a lone low surrogate, and against its own high surrogate followed by U+E000:
      the client puts U+10000 first, the authority the other key. */
  lemma {:induction false} OrdersDisagree()
    ensures UnitLess([0xD800, 0xDC00], [0xFFFF]) && PointLess([0xFFFF], [0xD800, 0xDC00])
    ensures UnitLess([0xD800, 0xDC00], [0xDC00]) && PointLess([0xDC00], [0xD800, 0xDC00])
    ensures UnitLess([0xD800, 0xDC00], [0xD800, 0xE000]) && PointLess([0xD800, 0xE000], [0xD800, 0xDC00])
  {
    assert [0xD800, 0xDC00][1..] == [0xDC00] && [0xD800, 0xE000][1..] == [0xE000];
  }

  predicate IsSurrogate(u: Utf8.Unit) { 0xD800 <= u < 0xE000 }

  /** The first units in which the texts differ are a surrogate and a unit from U+E000 on. */
  predicate DiffersAt(a: Text, b: Text, i: int) {
    && 0 <= i < |a| && i < |b| && a[..i] == b[..i]
    && ((IsSurrogate(a[i]) && b[i] >= 0xE000) || (a[i] >= 0xE000 && IsSurrogate(b[i])))
  }

  /** Without lone surrogates, keys clash exactly if they first differ by a surrogate against a unit from U+E000 on. */
  lemma {:induction false} ClashInUnicode(a: Text, b: Text)
    requires Utf8.WellFormed(a) && Utf8.WellFormed(b)
    ensures Clash(a, b) <==> exists i :: DiffersAt(a, b, i)
    decreases |a|
  {
    if a != [] && b != [] {
      var ca, cb := Utf8.CodePointAt(a, 0), Utf8.CodePointAt(b, 0);
      if ca == cb {
        var w := Utf8.Width(ca);
        SamePoint(a, b);
        ClashInUnicode(a[w..], b[w..]);
        DiffersPastPoint(a, b, w);
      } else {
        DiffersAtPoint(a, b);
      }
    }
  }

  lemma {:induction false} SamePrefix(a: Text, b: Text, n: nat)
    requires n <= |a| && n <= |b| && a[..n] == b[..n]
    ensures forall k :: 0 <= k < n ==> a[k] == b[k]
  {
    forall k | 0 <= k < n
      ensures a[k] == b[k]
    {
      assert a[k] == a[..n][k] && b[k] == b[..n][k];
    }
  }

  lemma {:induction false} DiffersPastPoint(a: Text, b: Text, w: nat)
    requires w <= |a| && w <= |b| && a[..w] == b[..w]
    ensures (exists i :: DiffersAt(a, b, i)) <==> (exists i :: DiffersAt(a[w..], b[w..], i))
  {
    SamePrefix(a, b, w);
    if i :| DiffersAt(a, b, i) {
      assert a[w..][..i - w] == a[..i][w..] && b[w..][..i - w] == b[..i][w..];
      assert DiffersAt(a[w..], b[w..], i - w);
    }
    if i :| DiffersAt(a[w..], b[w..], i) {
      assert a[..w + i] == a[..w] + a[w..][..i] && b[..w + i] == b[..w] + b[w..][..i];
      assert DiffersAt(a, b, w + i);
    }
  }

  lemma {:induction false} DiffersAtPoint(a: Text, b: Text)
    requires a != [] && b != [] && Utf8.WellFormed(a) && Utf8.WellFormed(b)
    requires Utf8.CodePointAt(a, 0) != Utf8.CodePointAt(b, 0)
    ensures Clash(a, b) <==> exists i :: DiffersAt(a, b, i)
  {
    if Clash(a, b) {
      assert DiffersAt(a, b, 0);
    }
    if i :| DiffersAt(a, b, i) {
      SamePrefix(a, b, i);
    }
  }

  /** No two keys of one object clash. */
  predicate NoClash(v: Json)
    decreases v
  {
    match v
    case Arr(items) => forall x :: x in items ==> NoClash(x)
    case Obj(members) =>
      && (forall m, n :: m in members && n in members ==> !Clash(m.key, n.key))
      && (forall m :: m in members ==> NoClash(m.value))
    case _ => true
  }

  predicate AgreeOn(ms: seq<Member>) {
    forall m, n :: m in ms && n in ms ==> UnitLess(m.key, n.key) == PointLess(m.key, n.key)
  }

  lemma {:induction false} InsertAgrees(m: Member, ms: seq<Member>)
    requires forall n :: n in ms ==> UnitLess(n.key, m.key) == PointLess(n.key, m.key)
    ensures Insert(CodeUnits, m, ms) == Insert(CodePoints, m, ms)
    decreases |ms|
  {
    hide UnitLess, PointLess;
    if ms != [] {
      assert ms[0] in ms;
      InsertAgrees(m, ms[1..]);
    }
  }

  lemma {:induction false} SortAgrees(ms: seq<Member>)
    requires AgreeOn(ms)
    ensures Sort(CodeUnits, ms) == Sort(CodePoints, ms)
    decreases |ms|
  {
    if ms != [] {
      assert ms[0] in ms;
      assert forall m :: m in ms[1..] ==> m in ms;
      SortAgrees(ms[1..]);
      SortKeeps(CodeUnits, ms[1..]);
      InsertAgrees(ms[0], Sort(CodeUnits, ms[1..]));
    }
  }

  lemma {:induction false} NoClashNormalizes(v: Json)
    requires NoClash(v)
    ensures Print(CodeUnits, v) == Print(CodePoints, v)
    decreases v, 1, 0
  {
    match v
    case Arr(items) => NoClashItems(items, v);
    case Obj(members) =>
      forall m, n | m in members && n in members
        ensures UnitLess(m.key, n.key) == PointLess(m.key, n.key)
      {
        OrdersAgree(m.key, n.key);
      }
      SortAgrees(members);
      SortKeeps(CodeUnits, members);
      var sorted := Sort(CodeUnits, members);
      assert forall i :: 0 <= i < |sorted| ==> sorted[i] in members;
      NoClashMembers(sorted, v);
    case _ =>
  }

  lemma {:induction false} NoClashItems(items: seq<Json>, owner: Json)
    requires forall i :: 0 <= i < |items| ==> items[i] < owner && NoClash(items[i])
    ensures PrintItems(CodeUnits, items, owner) == PrintItems(CodePoints, items, owner)
    decreases owner, 0, |items|
  {
    hide Print;
    if items != [] {
      NoClashNormalizes(items[0]);
      NoClashItems(items[1..], owner);
    }
  }

  lemma {:induction false} NoClashMembers(ms: seq<Member>, owner: Json)
    requires forall i :: 0 <= i < |ms| ==> ms[i].value < owner && NoClash(ms[i].value)
    ensures PrintMembers(CodeUnits, ms, owner) == PrintMembers(CodePoints, ms, owner)
    decreases owner, 0, |ms|
  {
    hide Print, AsciiJsonString;
    if ms != [] {
      NoClashNormalizes(ms[0].value);
      NoClashMembers(ms[1..], owner);
    }
  }

  lemma {:induction false} EqualNormalsDoNotClash(v: Json)
    requires DistinctKeys(v) && Normalize(CodeUnits, v) == Normalize(CodePoints, v)
    ensures NoClash(v)
    decreases v
  {
    match v
    case Arr(items) =>
      forall x | x in items
        ensures NoClash(x)
      {
        var i :| 0 <= i < |items| && items[i] == x;
        assert Normalize(CodeUnits, v).items[i] == Normalize(CodePoints, v).items[i];
        EqualNormalsDoNotClash(x);
      }
    case Obj(members) =>
      var a, b := Sort(CodeUnits, members), Sort(CodePoints, members);
      SortKeeps(CodeUnits, members);
      SortKeeps(CodePoints, members);
      assert |a| == |b|;
      forall i | 0 <= i < |a|
        ensures a[i] == b[i]
      {
        assert Normalize(CodeUnits, v).members[i] == Normalize(CodePoints, v).members[i];
        assert a[i] in members && b[i] in members;
        KeyNamesMember(members, a[i], b[i]);
      }
      assert a == b;
      forall m | m in members
        ensures NoClash(m.value)
      {
        assert m in a;
        var i :| 0 <= i < |a| && a[i] == m;
        assert Normalize(CodeUnits, v).members[i] == Normalize(CodePoints, v).members[i];
        EqualNormalsDoNotClash(m.value);
      }
      SortAscends(CodeUnits, members);
      SortAscends(CodePoints, members);
      SortedKeysDoNotClash(a, members);
    case _ =>
  }

  lemma {:induction false} SortedKeysDoNotClash(a: seq<Member>, members: seq<Member>)
    requires Ascending(CodeUnits, a) && Ascending(CodePoints, a) && forall m :: m in members <==> m in a
    ensures forall m, n :: m in members && n in members ==> !Clash(m.key, n.key)
  {
    forall m, n | m in members && n in members
      ensures !Clash(m.key, n.key)
    {
      assert m in a && n in a;
      var i :| 0 <= i < |a| && a[i] == m;
      var j :| 0 <= j < |a| && a[j] == n;
      OrdersAgree(m.key, n.key);
      if j < i {
        LessAsymmetric(CodeUnits, n.key, m.key);
        LessAsymmetric(CodePoints, n.key, m.key);
      } else if i == j {
        if UnitLess(m.key, m.key) { LessAsymmetric(CodeUnits, m.key, m.key); }
        if PointLess(m.key, m.key) { LessAsymmetric(CodePoints, m.key, m.key); }
      } else {
        assert Less(CodeUnits, a[i].key, a[j].key) && Less(CodePoints, a[i].key, a[j].key);
      }
    }
  }

  /** Client and authority print a value alike, so that each accepts what the other signed,
      exactly when no object in it has two clashing keys. */
  lemma {:induction false} EndsAgree(v: Json)
    requires DistinctKeys(v)
    ensures ClientJson(v) == AuthorityJson(v) <==> NoClash(v)
  {
    hide Print, Normalize, NoClash, DistinctKeys, ParseJson;
    if NoClash(v) {
      NoClashNormalizes(v);
    }
    if ClientJson(v) == AuthorityJson(v) {
      ReadBack(CodeUnits, v);
      ReadBack(CodePoints, v);
      EqualNormalsDoNotClash(v);
    }
  }
}
