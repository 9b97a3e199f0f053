/**
 The canonical identifier of a label set (createMapID in perfdash/parser.go): the keys are
 sorted and every pair is rendered as key, colon, value, bar.
 */
module MapId {
  import opened Common
  import opened Text

  // ----- The order of strings -----

  predicate Less(a: string, b: string) {
    if b == [] then false
    else if a == [] then true
    else a[0] < b[0] || (a[0] == b[0] && Less(a[1..], b[1..]))
  }

  /** `a` comes first where the two differ, or ends before they do. */
  ghost predicate DiffersAt(a: string, b: string, k: nat) {
    && k <= |a| && k <= |b| && a[..k] == b[..k]
    && (if k < |a| then k < |b| && a[k] < b[k] else k < |b|)
  }

  lemma {:induction false} LessIsLexicographic(a: string, b: string)
    ensures Less(a, b) <==> exists k: nat :: DiffersAt(a, b, k)
  {
    hide DiffersAt;
    if a == [] || b == [] {
      DiffersAtFront(a, b);
      if k: nat :| DiffersAt(a, b, k) {
        DiffersWithin(a, b, k);
      }
    } else {
      LessIsLexicographic(a[1..], b[1..]);
      DiffersAtFront(a, b);
      if k: nat :| DiffersAt(a[1..], b[1..], k) {
        DiffersLater(a, b, k);
      }
      if k: nat :| DiffersAt(a, b, k) && k > 0 {
        DiffersLater(a, b, k - 1);
      }
    }
  }

  lemma DiffersAtFront(a: string, b: string)
    ensures DiffersAt(a, b, 0) <==> b != [] && (a == [] || a[0] < b[0])
  {
  }

  lemma DiffersWithin(a: string, b: string, k: nat)
    requires DiffersAt(a, b, k)
    ensures k <= |a| && b != []
  {
  }

  lemma DiffersLater(a: string, b: string, k: nat)
    requires a != [] && b != []
    ensures DiffersAt(a, b, k + 1) <==> a[0] == b[0] && DiffersAt(a[1..], b[1..], k)
  {
    if k < |a| && k < |b| {
      assert a[..k + 1] == [a[0]] + a[1..][..k];
      assert b[..k + 1] == [b[0]] + b[1..][..k];
      assert a[..k + 1][0] == a[0] && a[..k + 1][1..] == a[1..][..k];
      assert b[..k + 1][0] == b[0] && b[..k + 1][1..] == b[1..][..k];
    }
  }

  lemma {:induction false} LessTransitive(a: string, b: string, c: string)
    requires Less(a, b) && Less(b, c)
    ensures Less(a, c)
  {
    if a != [] && a[0] == b[0] == c[0] {
      LessTransitive(a[1..], b[1..], c[1..]);
    }
  }

  lemma {:induction false} LessTotal(a: string, b: string)
    ensures a == b || Less(a, b) || Less(b, a)
    ensures !(Less(a, b) && Less(b, a)) && !Less(a, a)
  {
    if a != [] {
      LessTotal(a[1..], a[1..]);
      if b != [] {
        LessTotal(a[1..], b[1..]);
        assert a == [a[0]] + a[1..] && b == [b[0]] + b[1..];
      }
    }
  }

  ghost predicate StrictlySorted(keys: seq<string>) {
    forall i, j :: 0 <= i < j < |keys| ==> Less(keys[i], keys[j])
  }

  ghost predicate Lists(keys: seq<string>, all: set<string>) {
    forall k :: k in keys <==> k in all
  }

  /** A set has one sorted listing. */
  lemma {:induction false} SortedIsUnique(a: seq<string>, b: seq<string>, all: set<string>)
    requires StrictlySorted(a) && StrictlySorted(b) && Lists(a, all) && Lists(b, all)
    ensures a == b
    decreases |a|
  {
    assert b != [] ==> b[0] in b;
    if a != [] {
      assert a[0] in all && b != [];
      assert b[0] in all && b[0] in a && a[0] in b;
      HeadIsLeast(a, b[0]);
      HeadIsLeast(b, a[0]);
      LessTotal(a[0], b[0]);
      TailLists(a, all);
      TailLists(b, all);
      SortedIsUnique(a[1..], b[1..], all - {a[0]});
      assert a == [a[0]] + a[1..] && b == [b[0]] + b[1..];
    }
  }

  lemma HeadIsLeast(keys: seq<string>, k: string)
    requires StrictlySorted(keys) && k in keys
    ensures keys[0] == k || Less(keys[0], k)
  {
    var i :| 0 <= i < |keys| && keys[i] == k;
  }

  lemma TailLists(keys: seq<string>, all: set<string>)
    requires StrictlySorted(keys) && keys != [] && Lists(keys, all)
    ensures StrictlySorted(keys[1..]) && Lists(keys[1..], all - {keys[0]})
  {
    LessTotal(keys[0], keys[0]);
    assert keys == [keys[0]] + keys[1..];
    forall i | 0 < i < |keys| ensures keys[i] != keys[0] {
      assert Less(keys[0], keys[i]);
    }
  }

  // ----- Sorting and rendering -----

  function Insert(keys: seq<string>, k: string): (r: seq<string>)
    requires StrictlySorted(keys) && k !in keys
    ensures StrictlySorted(r)
    ensures forall x :: x in r <==> x in keys || x == k
  {
    if keys == [] then [k]
    else
      LessTotal(k, keys[0]);
      if Less(k, keys[0]) then
        InsertFront(keys, k);
        [k] + keys
      else
        var rest := Insert(keys[1..], k);
        InsertLater(keys, k, rest);
        [keys[0]] + rest
  }

  lemma InsertFront(keys: seq<string>, k: string)
    requires StrictlySorted(keys) && keys != [] && Less(k, keys[0])
    ensures StrictlySorted([k] + keys)
  {
    forall i | 0 < i < |keys| ensures Less(k, keys[i]) {
      LessTransitive(k, keys[0], keys[i]);
    }
  }

  lemma InsertLater(keys: seq<string>, k: string, rest: seq<string>)
    requires StrictlySorted(keys) && keys != [] && Less(keys[0], k)
    requires StrictlySorted(rest) && forall x :: x in rest <==> x in keys[1..] || x == k
    ensures StrictlySorted([keys[0]] + rest)
    ensures forall x :: x in [keys[0]] + rest <==> x in keys || x == k
  {
    assert keys == [keys[0]] + keys[1..];
    forall i | 0 <= i < |rest| ensures Less(keys[0], rest[i]) {
      assert rest[i] in rest;
      if rest[i] != k {
        var j :| 0 <= j < |keys[1..]| && keys[1..][j] == rest[i];
        assert Less(keys[0], keys[j + 1]);
      }
    }
  }

  ghost predicate Distinct(keys: seq<string>) {
    forall i, j :: 0 <= i < j < |keys| ==> keys[i] != keys[j]
  }

  /** sort.Strings, for the distinct keys of a map. */
  function Sorted(keys: seq<string>): (r: seq<string>)
    requires Distinct(keys)
    ensures StrictlySorted(r)
    ensures forall x :: x in r <==> x in keys
  {
    if keys == [] then []
    else
      assert keys == keys[..|keys| - 1] + [keys[|keys| - 1]];
      Insert(Sorted(keys[..|keys| - 1]), keys[|keys| - 1])
  }

  function Render(m: map<string, string>, keys: seq<string>): string
    requires forall k :: k in keys ==> k in m
  {
    if keys == [] then ""
    else
      assert forall k :: k in keys[1..] ==> k in keys;
      assert keys[0] in keys;
      keys[0] + ":" + m[keys[0]] + "|" + Render(m, keys[1..])
  }

  /** The keys of a set in order. */
  ghost function SortedKeys(all: set<string>): (r: seq<string>)
    ensures StrictlySorted(r) && Lists(r, all)
  {
    if all == {} then []
    else
      var k :| k in all;
      Insert(SortedKeys(all - {k}), k)
  }

  /** The identifier of `m`: its pairs in the order of the keys. */
  ghost function MapId(m: map<string, string>): string {
    Render(m, SortedKeys(m.Keys))
  }

  /**
   The keys are collected in whatever order the map is walked; the identifier does not depend
   on it.
   */
  method CreateMapId(m: map<string, string>) returns (id: string)
    ensures id == MapId(m)
  {
    hide Render, Less, StrictlySorted, Distinct;
    WalkedNothing();
    var walked: seq<string>, rest := [], m.Keys;
    while rest != {}
      invariant Distinct(walked) && rest <= m.Keys && Lists(walked, m.Keys - rest)
      decreases |rest|
    {
      var key :| key in rest;
      WalkedDistinct(walked, key);
      walked, rest := walked + [key], rest - {key};
    }
    var keys := Sorted(walked);
    SortedIsUnique(keys, SortedKeys(m.Keys), m.Keys);
    id := "";
    var i := 0;
    while i < |keys|
      invariant 0 <= i <= |keys|
      invariant id + Render(m, keys[i..]) == MapId(m)
    {
      RenderFirst(m, keys, i);
      ghost var pair, later := keys[i] + ":" + m[keys[i]] + "|", Render(m, keys[i + 1..]);
      assert id + (pair + later) == (id + pair) + later;
      id := id + (keys[i] + ":" + m[keys[i]] + "|");
      i := i + 1;
    }
    RenderNothing(m, keys[i..]);
  }

  lemma WalkedNothing()
    ensures Distinct([])
  {
  }

  lemma WalkedDistinct(walked: seq<string>, key: string)
    requires Distinct(walked) && key !in walked
    ensures Distinct(walked + [key])
  {
  }

  lemma RenderNothing(m: map<string, string>, keys: seq<string>)
    requires keys == []
    ensures Render(m, keys) == ""
  {
  }

  lemma RenderFirst(m: map<string, string>, keys: seq<string>, i: nat)
    requires i < |keys| && forall k :: k in keys ==> k in m
    ensures keys[i] in m
    ensures Render(m, keys[i..]) == (keys[i] + ":" + m[keys[i]] + "|") + Render(m, keys[i + 1..])
  {
    assert keys[i..][1..] == keys[i + 1..];
  }

  // ----- Reading an identifier back -----

  /** No key contains the separator of the value, and no value the one of the next pair. */
  ghost predicate Unambiguous(m: map<string, string>) {
    forall k :: k in m ==> ':' !in k && '|' !in m[k]
  }

  lemma CutAtSeparator(a: string, b: string, a': string, b': string, separator: char)
    requires separator !in a && separator !in a'
    requires a + [separator] + b == a' + [separator] + b'
    ensures a == a' && b == b'
  {
    IndexAfterPrefix(a, separator, b);
    IndexAfterPrefix(a', separator, b');
    var s := a + [separator] + b;
    assert a == s[..|a|] && a' == s[..|a'|];
    assert b == s[|a| + 1..] && b' == s[|a'| + 1..];
  }

  lemma {:induction false} RenderIsInjective(m: map<string, string>, keys: seq<string>,
                                             m': map<string, string>, keys': seq<string>)
    requires (forall k :: k in keys ==> k in m) && (forall k :: k in keys' ==> k in m')
    requires Unambiguous(m) && Unambiguous(m')
    requires Render(m, keys) == Render(m', keys')
    ensures keys == keys' && forall k :: k in keys ==> m[k] == m'[k]
    decreases |keys|
  {
    if keys != [] && keys' != [] {
      var k, k' := keys[0], keys'[0];
      var rest, rest' := Render(m, keys[1..]), Render(m', keys'[1..]);
      assert keys[0] in keys && keys'[0] in keys';
      assert Render(m, keys) == k + [':'] + (m[k] + ['|'] + rest);
      assert Render(m', keys') == k' + [':'] + (m'[k'] + ['|'] + rest');
      CutAtSeparator(k, m[k] + ['|'] + rest, k', m'[k'] + ['|'] + rest', ':');
      CutAtSeparator(m[k], rest, m'[k'], rest', '|');
      RenderIsInjective(m, keys[1..], m', keys'[1..]);
      assert keys == [k] + keys[1..] && keys' == [k'] + keys'[1..];
    }
  }

  /** Different unambiguous label sets have different identifiers. */
  lemma {:induction false} MapIdIsInvertible(m: map<string, string>, m': map<string, string>)
    requires Unambiguous(m) && Unambiguous(m')
    requires MapId(m) == MapId(m')
    ensures m == m'
  {
    hide Render, Less, StrictlySorted, Unambiguous, SortedKeys;
    var keys, keys' := SortedKeys(m.Keys), SortedKeys(m'.Keys);
    RenderIsInjective(m, keys, m', keys');
    assert forall k :: k in m <==> k in keys;
    assert forall k :: k in m' <==> k in keys;
  }

  /** A value with a bar in it can imitate a second label. */
  lemma MapIdsCanCollide(k: string, v: string, l: string, w: string)
    requires Less(k, l)
    ensures MapId(map[k := v + "|" + l + ":" + w]) == MapId(map[k := v, l := w])
  {
    hide Less, SortedKeys;
    LessTotal(k, l);
    var one, two := map[k := v + "|" + l + ":" + w], map[k := v, l := w];
    SortedIsUnique([k], SortedKeys(one.Keys), one.Keys);
    SortedIsUnique([k, l], SortedKeys(two.Keys), two.Keys);
    assert [k][1..] == [] && [k, l][1..] == [l] && [l][1..] == [];
    assert Render(one, [k]) == k + ":" + (v + "|" + l + ":" + w) + "|" + "";
    assert Render(two, [l]) == l + ":" + w + "|" + "";
    assert Render(two, [k, l]) == k + ":" + v + "|" + Render(two, [l]);
    assert k + ":" + (v + "|" + l + ":" + w) + "|" + ""
        == k + ":" + v + "|" + (l + ":" + w + "|" + "");
  }

  // ----- Which label sets share their identifier -----

  lemma IdOfOne(k: string, v: string)
    ensures MapId(map[k := v]) == k + [':'] + (v + ['|'])
  {
    hide SortedKeys;
    var one := map[k := v];
    LessTotal(k, k);
    SortedIsUnique([k], SortedKeys(one.Keys), one.Keys);
    assert [k][1..] == [] && Render(one, []) == "";
    assert k + ":" + v + "|" + "" == k + [':'] + (v + ['|']);
  }

  lemma RenderCons(m: map<string, string>, keys: seq<string>)
    requires keys != [] && forall k :: k in keys ==> k in m
    ensures keys[0] in m && forall k :: k in keys[1..] ==> k in m
    ensures Render(m, keys) == keys[0] + [':'] + (m[keys[0]] + ['|'] + Render(m, keys[1..]))
  {
    TailKeys(keys);
    Regroup(keys[0], m[keys[0]], Render(m, keys[1..]));
    RenderUnfold(m, keys);
    hide Render;
  }

  lemma TailKeys(keys: seq<string>)
    requires keys != []
    ensures keys[0] in keys && forall k :: k in keys[1..] ==> k in keys
  {
  }

  lemma Regroup(k: string, v: string, rest: string)
    ensures k + ":" + v + "|" + rest == k + [':'] + (v + ['|'] + rest)
  {
  }

  lemma RenderUnfold(m: map<string, string>, keys: seq<string>)
    requires keys != [] && forall k :: k in keys ==> k in m
    ensures keys[0] in m && forall k :: k in keys[1..] ==> k in m
    ensures Render(m, keys) == keys[0] + ":" + m[keys[0]] + "|" + Render(m, keys[1..])
  {
    TailKeys(keys);
  }

  /** An identifier ends with a bar. */
  lemma {:induction false} RenderEndsWithBar(m: map<string, string>, keys: seq<string>) returns (body: string)
    requires keys != [] && forall k :: k in keys ==> k in m
    ensures Render(m, keys) == body + ['|']
  {
    hide Render;
    RenderCons(m, keys);
    var front := keys[0] + [':'] + m[keys[0]];
    if |keys| == 1 {
      assert keys[1..] == [];
      RenderNothing(m, keys[1..]);
      body := front;
      assert keys[0] + [':'] + (m[keys[0]] + ['|'] + "") == body + ['|'];
    } else {
      var rest := RenderEndsWithBar(m, keys[1..]);
      body := front + ['|'] + rest;
      assert keys[0] + [':'] + (m[keys[0]] + ['|'] + (rest + ['|'])) == body + ['|'];
    }
  }

  /** What is rendered for the first of the sorted keys, and the keys after it. */
  lemma FirstPair(m: map<string, string>) returns (k: string, v: string, others: seq<string>)
    requires m != map[]
    ensures k in m && m[k] == v && (forall l :: l in others ==> l in m && Less(k, l))
    ensures MapId(m) == k + [':'] + (v + ['|'] + Render(m, others))
    ensures others == [] <==> m == map[k := v]
    ensures others != [] <==> |m| >= 2
  {
    hide Render, Less, StrictlySorted;
    var keys := SortedKeys(m.Keys);
    var any :| any in m;
    assert any in keys;
    RenderCons(m, keys);
    k, v, others := keys[0], m[keys[0]], keys[1..];
    OthersAreLater(keys);
    CountOthers(m, k, others);
  }

  lemma OthersAreLater(keys: seq<string>)
    requires StrictlySorted(keys) && keys != []
    ensures forall l :: l in keys[1..] ==> l in keys && l != keys[0] && Less(keys[0], l)
    ensures forall l :: l in keys ==> l == keys[0] || l in keys[1..]
  {
    assert keys == [keys[0]] + keys[1..];
    LessTotal(keys[0], keys[0]);
    forall l | l in keys[1..] ensures Less(keys[0], l) {
      var i :| 0 <= i < |keys[1..]| && keys[1..][i] == l;
      assert keys[i + 1] == l;
    }
  }

  lemma CountOthers(m: map<string, string>, k: string, others: seq<string>)
    requires k in m && (forall l :: l in others ==> l in m && l != k) && forall l :: l in m ==> l == k || l in others
    ensures others == [] <==> m == map[k := m[k]]
    ensures others != [] <==> |m| >= 2
  {
    if others == [] {
      assert m.Keys == {k};
    } else {
      assert others[0] in others;
      SubsetSize(m.Keys, {k, others[0]});
    }
  }

  /** Two or more labels can be imitated by the first of them, with a long value. */
  lemma ManyAreImitated(m: map<string, string>) returns (m': map<string, string>)
    requires |m| >= 2
    ensures m' != m && MapId(m') == MapId(m) && m'.Keys <= m.Keys
  {
    hide MapId, Render;
    var k, v, others := FirstPair(m);
    var body := RenderEndsWithBar(m, others);
    m' := map[k := v + ['|'] + body];
    IdOfOne(k, v + ['|'] + body);
    assert v + ['|'] + (body + ['|']) == (v + ['|'] + body) + ['|'];
    assert |m'.Keys| == 1;
  }

  /** Some other label set has the same identifier. */
  ghost predicate IsShared(m: map<string, string>) {
    exists m' :: m' != m && MapId(m') == MapId(m)
  }

  /** All labels of `m` have one of these names. */
  ghost predicate IsNamedBy(m: map<string, string>, names: iset<string>) {
    forall k :: k in m ==> k in names
  }

  ghost predicate IsSharedAmong(m: map<string, string>, names: iset<string>) {
    exists m' :: m' != m && IsNamedBy(m', names) && MapId(m') == MapId(m)
  }

  /** The value of the only label looks like a value followed by a later label. */
  ghost predicate ImitatesTwo(m: map<string, string>, names: iset<string>) {
    exists k, v, l, w :: l in names && Less(k, l) && m == map[k := v + "|" + l + ":" + w]
  }

  /**
   Over names without a colon, as those of Prometheus labels, a label set shares its identifier with another one
   exactly when it has two labels or more, or one that imitates two.
   */
  lemma SharedAmongExactly(m: map<string, string>, names: iset<string>)
    requires IsNamedBy(m, names) && forall n :: n in names ==> ':' !in n
    ensures IsSharedAmong(m, names) <==> |m| >= 2 || ImitatesTwo(m, names)
  {
    hide MapId, Less;
    if |m| >= 2 {
      var m' := ManyAreImitated(m);
      assert IsNamedBy(m', names);
    } else if ImitatesTwo(m, names) {
      var k, v, l, w :| l in names && Less(k, l) && m == map[k := v + "|" + l + ":" + w];
      MapIdsCanCollide(k, v, l, w);
      LessTotal(k, l);
      var two := map[k := v, l := w];
      assert k in m && l in two && l !in m;
      assert IsNamedBy(two, names) && two != m;
    } else if m' :| m' != m && IsNamedBy(m', names) && MapId(m') == MapId(m) {
      SharingImitates(m, m', names);
    }
  }

  lemma NoIdOfNone()
    ensures MapId(map[]) == ""
  {
    var none: map<string, string> := map[];
    assert none.Keys == {};
  }

  lemma SharingImitates(m: map<string, string>, m': map<string, string>, names: iset<string>)
    requires IsNamedBy(m, names) && IsNamedBy(m', names) && forall n :: n in names ==> ':' !in n
    requires |m| <= 1 && m' != m && MapId(m') == MapId(m)
    ensures ImitatesTwo(m, names)
  {
    hide MapId, Less, Render;
    NoIdOfNone();
    if m != map[] && m' != map[] {
      var k, u, none := FirstPair(m);
      var k', v, others := FirstPair(m');
      IdOfOne(k, u);
      CutAtSeparator(k, u + ['|'], k', v + ['|'] + Render(m', others), ':');
      SameBeforeBar(u, v);
      if others == [] {
        RenderNothing(m', others);
      } else {
        RenderCons(m', others);
        var l := others[0];
        assert l in others && forall n :: n in others[1..] ==> n in others;
        var tail := m'[l] + ['|'] + Render(m', others[1..]);
        var w := RestEndsWithBar(m', others);
        assert u + ['|'] == (v + "|" + l + ":" + w) + ['|'];
        assert u == (u + ['|'])[..|u|] == v + "|" + l + ":" + w;
      }
    } else if m != map[] {
      var k, u, none := FirstPair(m);
    } else {
      var k, u, none := FirstPair(m');
    }
  }

  lemma SameBeforeBar(u: string, v: string)
    ensures u + ['|'] == v + ['|'] + "" ==> u == v
  {
    assert (u + ['|'])[..|u|] == u && (v + ['|'] + "")[..|v|] == v;
  }

  lemma RestEndsWithBar(m: map<string, string>, keys: seq<string>) returns (w: string)
    requires keys != [] && forall k :: k in keys ==> k in m
    ensures Render(m, keys) == keys[0] + ":" + w + "|"
  {
    hide Render;
    RenderCons(m, keys);
    var v := m[keys[0]];
    if |keys| == 1 {
      RenderNothing(m, keys[1..]);
      w := v;
      assert keys[0] + [':'] + (v + ['|'] + "") == keys[0] + ":" + w + "|";
    } else {
      var rest := RenderEndsWithBar(m, keys[1..]);
      w := v + ['|'] + rest;
      assert keys[0] + [':'] + (v + ['|'] + (rest + ['|'])) == keys[0] + ":" + w + "|";
    }
  }

  /** No two label sets over these names share their identifier. */
  ghost predicate TellApart(names: iset<string>) {
    forall m :: IsNamedBy(m, names) ==> !IsSharedAmong(m, names)
  }

  /** Over a set of names the identifiers tell all label sets apart exactly when there is at most one name. */
  lemma TellApartExactly(names: set<string>)
    requires forall n :: n in names ==> ':' !in n
    ensures TellApart(iset n | n in names) <==> |names| <= 1
  {
    hide MapId, Less;
    var all := iset n | n in names;
    if |names| <= 1 {
      forall m: map<string, string> | IsNamedBy(m, all) ensures !IsSharedAmong(m, all) {
        assert m.Keys <= names;
        SubsetSize(names, m.Keys);
        SharedAmongExactly(m, all);
        ImitationNeedsTwoNames(m, names);
      }
    } else {
      var k :| k in names;
      assert names != {k};
      var l :| l in names && l != k;
      var m := map[k := "", l := ""];
      assert m.Keys == {k, l};
      SharedAmongExactly(m, all);
      assert IsNamedBy(m, all) && IsSharedAmong(m, all);
    }
  }

  lemma ImitationNeedsTwoNames(m: map<string, string>, names: set<string>)
    ensures m.Keys <= names && ImitatesTwo(m, iset n | n in names) ==> |names| >= 2
  {
    if m.Keys <= names && ImitatesTwo(m, iset n | n in names) {
      var k, v, l, w :| l in names && Less(k, l) && m == map[k := v + "|" + l + ":" + w];
      LessTotal(k, l);
      assert k in m;
      SubsetSize(names, {k, l});
    }
  }

  /** For labels of any name: shared exactly with two labels or more, or with a colon in the name or the value of
      one. */
  lemma SharedExactly(m: map<string, string>)
    ensures IsShared(m) <==> |m| >= 2 || exists k :: k in m && (':' in k || ':' in m[k])
  {
    hide MapId;
    if |m| >= 2 {
      var m' := ManyAreImitated(m);
    } else if m == map[] {
      NoIdOfNone();
      forall m' | m' != m ensures MapId(m') != MapId(m) {
        var k, v, others := FirstPair(m');
      }
    } else {
      var k, u, none := FirstPair(m);
      IdOfOne(k, u);
      if ':' in k {
        ColonInName(k, u);
      } else if ':' in u {
        ColonInValue(k, u);
      } else {
        forall m' | MapId(m') == MapId(m) ensures m' == m {
          NoColonIsUnique(k, u, m');
        }
      }
    }
  }

  /** The same text, cut at another colon. */
  lemma CutElsewhere(k: string, u: string, k': string, u': string)
    requires k + [':'] + (u + ['|']) == k' + [':'] + (u' + ['|']) && |k| != |k'|
    ensures IsShared(map[k := u])
  {
    hide MapId;
    IdOfOne(k, u);
    IdOfOne(k', u');
    var one, other := map[k := u], map[k' := u'];
    assert k in one && k !in other;
    assert other != one && MapId(other) == MapId(one);
  }

  lemma ColonInName(k: string, u: string)
    requires ':' in k
    ensures IsShared(map[k := u])
  {
    hide IsShared;
    var i := IndexOf(k, ':');
    var a, b := k[..i], k[i + 1..];
    assert k == a + [':'] + b;
    assert (a + [':'] + b) + [':'] + (u + ['|']) == a + [':'] + ((b + [':'] + u) + ['|']);
    CutElsewhere(k, u, a, b + [':'] + u);
  }

  lemma ColonInValue(k: string, u: string)
    requires ':' in u
    ensures IsShared(map[k := u])
  {
    hide IsShared;
    var i := IndexOf(u, ':');
    var a, b := u[..i], u[i + 1..];
    assert u == a + [':'] + b;
    assert k + [':'] + ((a + [':'] + b) + ['|']) == (k + [':'] + a) + [':'] + (b + ['|']);
    CutElsewhere(k, u, k + [':'] + a, b);
  }

  lemma NoColonIsUnique(k: string, u: string, m: map<string, string>)
    requires ':' !in k && ':' !in u && MapId(m) == MapId(map[k := u])
    ensures m == map[k := u]
  {
    hide MapId, Less, Render;
    NoIdOfNone();
    IdOfOne(k, u);
    if m != map[] {
      var k', v, others := FirstPair(m);
      var s, tail := k + [':'] + (u + ['|']), v + ['|'] + Render(m, others);
      assert forall i :: 0 <= i < |s| && s[i] == ':' ==> i == |k|;
      assert s == k' + [':'] + tail;
      assert s[|k'|] == ':';
      assert forall i :: 0 <= i < |k'| ==> k'[i] == s[i];
      CutAtSeparator(k, u + ['|'], k', tail, ':');
      RenderHasColon(m, others);
      assert forall c :: c in Render(m, others) ==> c in tail;
      assert others == [];
      RenderNothing(m, others);
      SameBeforeBar(u, v);
    }
  }

  lemma RenderHasColon(m: map<string, string>, keys: seq<string>)
    requires forall k :: k in keys ==> k in m
    ensures keys != [] ==> ':' in Render(m, keys)
  {
    if keys != [] {
      RenderCons(m, keys);
    }
  }
}
