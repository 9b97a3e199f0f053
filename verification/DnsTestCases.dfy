/**
 Test case generation of the DNS performance test (dns/py/params.py).

 `Generate` recurses over the parameters, most disruptive first, and appends every combination of their values
 to one list.  The list is proved to be the combinations in lexicographic order, and that order to
 change the settings of the leading parameters as rarely as any order can.
 */
module DnsTestCases {
  import opened Common
  import opened MixedRadix

  /** When a parameter does not apply: never, for a cluster DNS, or for a cluster or node-local DNS. */
  datatype Relevance = Always | UnlessClusterDns | UnlessClusterOrNodeLocalDns

  datatype Param = Param(name: string, relevance: Relevance)
  {
    predicate IsRelevant(attributes: set<string>) {
      match relevance
      case Always => true
      case UnlessClusterDns => "cluster-dns" !in attributes
      case UnlessClusterOrNodeLocalDns => "cluster-dns" !in attributes && "node-local-dns" !in attributes
    }
  }

  const PARAMETERS: seq<Param> := [
    Param("run_length_seconds", Always),
    Param("dnsmasq_cpu", UnlessClusterOrNodeLocalDns),
    Param("dnsmasq_cache", UnlessClusterDns),
    Param("coredns_cache", UnlessClusterDns),
    Param("kubedns_cpu", UnlessClusterOrNodeLocalDns),
    Param("coredns_cpu", UnlessClusterOrNodeLocalDns),
    Param("max_qps", Always),
    Param("query_file", Always)]

  /** A parameter that takes part, and the values it ranges over. */
  datatype Axis<V> = Axis(param: Param, values: seq<V>)

  type Setting<V> = (Param, V)

  /** The parameters that take part, in order. */
  function Axes<V>(params: seq<Param>, values: map<string, seq<V>>, attributes: set<string>): seq<Axis<V>> {
    if params == [] then []
    else
      var rest := Axes(params[1..], values, attributes);
      if params[0].name !in values || !params[0].IsRelevant(attributes) then rest
      else [Axis(params[0], values[params[0].name])] + rest
  }

  /** How many combinations there are: the product of the list lengths. */
  function Size<V>(axes: seq<Axis<V>>): nat {
    if axes == [] then 1 else Mul(|axes[0].values|, Size(axes[1..]))
  }

  /** The digits of `i` in the mixed radix given by the list lengths, most significant first. */
  function Digits<V>(axes: seq<Axis<V>>, i: nat): (r: seq<nat>)
    requires i < Size(axes)
    ensures |r| == |axes| && forall k :: 0 <= k < |axes| ==> r[k] < |axes[k].values|
  {
    if axes == [] then []
    else
      hide Mul, Quot, Rem;
      QuotBelow(i, |axes[0].values|, Size(axes[1..]));
      [Quot(i, Size(axes[1..]))] + Digits(axes[1..], Rem(i, Size(axes[1..])))
  }

  function Settings<V>(axes: seq<Axis<V>>, digits: seq<nat>): (r: seq<Setting<V>>)
    requires |digits| == |axes| && forall k :: 0 <= k < |axes| ==> digits[k] < |axes[k].values|
    ensures |r| == |axes|
  {
    seq(|axes|, k requires 0 <= k < |axes| => (axes[k].param, axes[k].values[digits[k]]))
  }

  /** The combination at position `i`. */
  function At<V>(axes: seq<Axis<V>>, i: nat): (r: seq<Setting<V>>)
    requires i < Size(axes)
    ensures |r| == |axes|
  {
    Settings(axes, Digits(axes, i))
  }

  lemma PositionBound<V>(axes: seq<Axis<V>>, v: nat, i: nat)
    requires axes != [] && v < |axes[0].values| && i < Size(axes[1..])
    ensures Mul(v, Size(axes[1..])) + i < Size(axes)
  {
    hide Mul;
    MulMonotone(v + 1, |axes[0].values|, Size(axes[1..]));
    MulDistributes(v, 1, Size(axes[1..]));
  }

  lemma DigitsFirst<V>(axes: seq<Axis<V>>, i: nat)
    requires axes != [] && i < Size(axes)
    ensures Size(axes[1..]) > 0 && Rem(i, Size(axes[1..])) < Size(axes[1..])
    ensures Digits(axes, i) == [Quot(i, Size(axes[1..]))] + Digits(axes[1..], Rem(i, Size(axes[1..])))
  {
    hide Mul, Quot, Rem;
    QuotBelow(i, |axes[0].values|, Size(axes[1..]));
  }

  lemma AtFirst<V>(axes: seq<Axis<V>>, v: nat, i: nat)
    requires axes != [] && v < |axes[0].values| && i < Size(axes[1..])
    ensures Mul(v, Size(axes[1..])) + i < Size(axes)
    ensures At(axes, Mul(v, Size(axes[1..])) + i) == [(axes[0].param, axes[0].values[v])] + At(axes[1..], i)
  {
    hide Mul, Quot, Rem, Size, Digits, Settings;
    PositionBound(axes, v, i);
    DigitsFirst(axes, Mul(v, Size(axes[1..])) + i);
    QuotOf(v, Size(axes[1..]), i);
    SettingsFirst(axes, v, Digits(axes[1..], i));
  }

  lemma SettingsFirst<V>(axes: seq<Axis<V>>, v: nat, digits: seq<nat>)
    requires axes != [] && v < |axes[0].values|
    requires |digits| == |axes| - 1 && forall k :: 0 <= k < |digits| ==> digits[k] < |axes[1..][k].values|
    ensures Settings(axes, [v] + digits) == [(axes[0].param, axes[0].values[v])] + Settings(axes[1..], digits)
  {
  }

  // ----- The generator -----

  datatype TestCase<V> = TestCase(runId: int, runSubid: nat, podName: string, pv: seq<Setting<V>>)

  class TestCases<V(!new)> {
    const values: map<string, seq<V>>
    var cases: seq<TestCase<V>>

    constructor (values: map<string, seq<V>>)
      ensures this.values == values
    {
      this.values := values;
      cases := [];
    }

    method Generate(attributes: set<string>, runId: int)
      modifies this
      ensures
        var axes := Axes(PARAMETERS, values, attributes);
        && |cases| == Size(axes)
        && forall i :: 0 <= i < Size(axes) ==> cases[i] == TestCase(runId, i, "", At(axes, i))
      ensures HoldsChoices(cases, NamesInOrder(attributes), values)
    {
      cases := [];
      Iterate(PARAMETERS, [], attributes, runId);
      CasesAreChoices(cases, values, attributes, runId);
    }

    method Iterate(remaining: seq<Param>, pv: seq<Setting<V>>, attributes: set<string>, runId: int)
      modifies this
      ensures
        var axes := Axes(remaining, values, attributes);
        Extended(old(cases), cases, axes, pv, runId, Size(axes))
      decreases |remaining|
    {
      ghost var before, axes := cases, Axes(remaining, values, attributes);
      if |remaining| == 0 {
        cases := cases + [TestCase(runId, |cases|, "", pv)];
        assert At(axes, 0) == [];
        return;
      }
      var param := remaining[0];
      if param.name !in values || !param.IsRelevant(attributes) {
        Iterate(remaining[1..], pv, attributes, runId);
        return;
      }
      var list := values[param.name];
      assert axes[1..] == Axes(remaining[1..], values, attributes);
      ghost var rest := Size(axes[1..]);
      ExtendedByNone(before, axes, pv, runId, rest);
      for v := 0 to |list|
        invariant Extended(before, cases, axes, pv, runId, Mul(v, rest))
      {
        ghost var sofar := cases;
        Iterate(remaining[1..], pv + [(param, list[v])], attributes, runId);
        ExtendedByBlock(before, sofar, cases, axes, pv, runId, v);
      }
    }
  }

  /** `before` has been extended by the first `n` combinations, each numbered by its position. */
  ghost predicate Extended<V>(
      before: seq<TestCase<V>>, cases: seq<TestCase<V>>, axes: seq<Axis<V>>, pv: seq<Setting<V>>, runId: int, n: nat)
  {
    && n <= Size(axes)
    && |cases| == |before| + n && cases[..|before|] == before
    && forall i :: 0 <= i < n ==> cases[|before| + i] == TestCase(runId, |before| + i, "", pv + At(axes, i))
  }

  lemma ExtendedByNone<V>(before: seq<TestCase<V>>, axes: seq<Axis<V>>, pv: seq<Setting<V>>, runId: int, rest: nat)
    ensures Extended(before, before, axes, pv, runId, Mul(0, rest))
  {
    MulDistributes(0, 0, rest);
  }

  /** One more value of the first parameter adds one block of combinations of the others. */
  lemma ExtendedByBlock<V>(
      before: seq<TestCase<V>>, sofar: seq<TestCase<V>>, cases: seq<TestCase<V>>,
      axes: seq<Axis<V>>, pv: seq<Setting<V>>, runId: int, v: nat)
    requires axes != [] && v < |axes[0].values|
    requires Extended(before, sofar, axes, pv, runId, Mul(v, Size(axes[1..])))
    requires Extended(sofar, cases, axes[1..], pv + [(axes[0].param, axes[0].values[v])], runId, Size(axes[1..]))
    ensures Extended(before, cases, axes, pv, runId, Mul(v + 1, Size(axes[1..])))
  {
    hide Mul, Size, At;
    var setting := [(axes[0].param, axes[0].values[v])];
    var rest := Size(axes[1..]);
    var n := Mul(v, rest);
    MulDistributes(v, 1, rest);
    BlockFits(axes, v);
    forall i | 0 <= i < n + rest
      ensures cases[|before| + i] == TestCase(runId, |before| + i, "", pv + At(axes, i))
    {
      if i < n {
        assert cases[|before| + i] == sofar[|before| + i];
      } else {
        AtFirst(axes, v, i - n);
        assert cases[|sofar| + (i - n)].pv == (pv + setting) + At(axes[1..], i - n);
        assert (pv + setting) + At(axes[1..], i - n) == pv + (setting + At(axes[1..], i - n));
      }
    }
    assert cases[..|before|] == before by {
      assert cases[..|before|] == sofar[..|before|];
    }
  }

  lemma BlockFits<V>(axes: seq<Axis<V>>, v: nat)
    requires axes != [] && v < |axes[0].values|
    ensures Mul(v + 1, Size(axes[1..])) <= Size(axes)
  {
    hide Mul;
    MulMonotone(v + 1, |axes[0].values|, Size(axes[1..]));
  }

  // ----- Every combination once, in lexicographic order -----

  predicate LexLess(a: seq<nat>, b: seq<nat>)
    requires |a| == |b|
  {
    a != [] && (a[0] < b[0] || (a[0] == b[0] && LexLess(a[1..], b[1..])))
  }

  lemma {:induction false} LexicographicOrder<V>(axes: seq<Axis<V>>, i: nat, j: nat)
    requires i < j < Size(axes)
    ensures LexLess(Digits(axes, i), Digits(axes, j))
  {
    if axes != [] {
      hide Mul, Quot, Rem;
      var rest := Size(axes[1..]);
      QuotBelow(i, |axes[0].values|, rest);
      QuotBelow(j, |axes[0].values|, rest);
      QuotMonotone(i, j, rest);
      if Quot(i, rest) == Quot(j, rest) {
        LexicographicOrder(axes[1..], Rem(i, rest), Rem(j, rest));
      }
    }
  }

  ghost predicate DistinctValues<V>(axes: seq<Axis<V>>) {
    forall k :: 0 <= k < |axes| ==> forall v, w :: 0 <= v < w < |axes[k].values| ==>
      axes[k].values[v] != axes[k].values[w]
  }

  lemma {:induction false} LexIrreflexive(a: seq<nat>)
    ensures !LexLess(a, a)
  {
    if a != [] {
      LexIrreflexive(a[1..]);
    }
  }

  /** No combination is generated twice. */
  lemma AtMostOnce<V>(axes: seq<Axis<V>>, i: nat, j: nat)
    requires DistinctValues(axes) && i < j < Size(axes)
    ensures At(axes, i) != At(axes, j)
  {
    LexicographicOrder(axes, i, j);
    LexIrreflexive(Digits(axes, i));
    hide Digits, Size, LexLess;
    var k := FirstDifference(Digits(axes, i), Digits(axes, j));
    assert At(axes, i)[k] != At(axes, j)[k];
  }

  lemma FirstDifference<T>(a: seq<T>, b: seq<T>) returns (k: nat)
    requires |a| == |b| && a != b
    ensures k < |a| && a[k] != b[k]
  {
    k :| k < |a| && a[k] != b[k];
  }

  /** One value for each parameter. */
  ghost predicate IsCombination<V>(axes: seq<Axis<V>>, c: seq<Setting<V>>) {
    |c| == |axes| && forall k :: 0 <= k < |axes| ==> c[k].0 == axes[k].param && c[k].1 in axes[k].values
  }

  /** Every combination is generated, and nothing else is. */
  lemma {:induction false} EveryCombination<V>(axes: seq<Axis<V>>, c: seq<Setting<V>>)
    ensures IsCombination(axes, c) <==> exists i: nat :: i < Size(axes) && At(axes, i) == c
  {
    hide Mul, Digits, Settings;
    if IsCombination(axes, c) {
      if axes == [] {
        assert At(axes, 0) == c;
      } else {
        EveryCombination(axes[1..], c[1..]);
        var i: nat :| i < Size(axes[1..]) && At(axes[1..], i) == c[1..];
        var v: nat :| v < |axes[0].values| && axes[0].values[v] == c[0].1;
        AtFirst(axes, v, i);
        assert c == [c[0]] + c[1..];
        assert At(axes, Mul(v, Size(axes[1..])) + i) == c;
      }
    }
    forall i: nat | i < Size(axes) ensures IsCombination(axes, At(axes, i)) {
      AtIsCombination(axes, i);
    }
  }

  lemma AtIsCombination<V>(axes: seq<Axis<V>>, i: nat)
    requires i < Size(axes)
    ensures IsCombination(axes, At(axes, i))
  {
    hide Size, Digits;
  }

  // ----- Which parameters take part -----

  /** The parameters that apply to a DNS server, most disruptive first. */
  function NamesInOrder(attributes: set<string>): seq<string> {
    if "cluster-dns" in attributes then ["run_length_seconds", "max_qps", "query_file"]
    else if "node-local-dns" in attributes then
      ["run_length_seconds", "dnsmasq_cache", "coredns_cache", "max_qps", "query_file"]
    else
      ["run_length_seconds", "dnsmasq_cpu", "dnsmasq_cache", "coredns_cache", "kubedns_cpu", "coredns_cpu", "max_qps",
       "query_file"]
  }

  function Kept<V>(names: seq<string>, values: map<string, seq<V>>): (r: seq<string>)
    ensures forall name :: name in r ==> name in values
  {
    if names == [] then []
    else (if names[0] in values then [names[0]] else []) + Kept(names[1..], values)
  }

  function Named<V>(settings: seq<Setting<V>>): (r: seq<(string, V)>)
    ensures |r| == |settings|
  {
    seq(|settings|, k requires 0 <= k < |settings| => (settings[k].0.name, settings[k].1))
  }

  /** One of the listed values for each of the names. */
  ghost predicate IsChoice<V>(c: seq<(string, V)>, names: seq<string>, values: map<string, seq<V>>)
    requires forall name :: name in names ==> name in values
  {
    |c| == |names| && forall k :: 0 <= k < |names| ==> c[k].0 == names[k] && c[k].1 in values[names[k]]
  }

  function RelevantNames(params: seq<Param>, attributes: set<string>): seq<string> {
    if params == [] then []
    else
      (if params[0].IsRelevant(attributes) then [params[0].name] else []) + RelevantNames(params[1..], attributes)
  }

  lemma {:induction false} RelevantOfTwo(a: seq<Param>, b: seq<Param>, attributes: set<string>)
    ensures RelevantNames(a + b, attributes) == RelevantNames(a, attributes) + RelevantNames(b, attributes)
  {
    if a == [] {
      assert a + b == b;
    } else {
      assert (a + b)[1..] == a[1..] + b;
      RelevantOfTwo(a[1..], b, attributes);
    }
  }

  lemma RelevantOfOne(param: Param, attributes: set<string>)
    ensures RelevantNames([param], attributes) == if param.IsRelevant(attributes) then [param.name] else []
  {
    assert [param][1..] == [];
  }

  lemma RelevantInOrder(attributes: set<string>)
    ensures RelevantNames(PARAMETERS, attributes) == NamesInOrder(attributes)
  {
    hide RelevantNames;
    RelevantInFront(attributes);
    RelevantBehind(attributes);
    assert PARAMETERS == PARAMETERS[..4] + PARAMETERS[4..];
    RelevantOfTwo(PARAMETERS[..4], PARAMETERS[4..], attributes);
  }

  lemma RelevantInFront(attributes: set<string>)
    ensures RelevantNames(PARAMETERS[..4], attributes) ==
            if "cluster-dns" in attributes then ["run_length_seconds"]
            else if "node-local-dns" in attributes then ["run_length_seconds", "dnsmasq_cache", "coredns_cache"]
            else ["run_length_seconds", "dnsmasq_cpu", "dnsmasq_cache", "coredns_cache"]
  {
    hide RelevantNames;
    var ps := PARAMETERS[..4];
    assert ps == [ps[0], ps[1]] + [ps[2], ps[3]];
    RelevantOfTwo([ps[0], ps[1]], [ps[2], ps[3]], attributes);
    RelevantOfPair(ps[0], ps[1], attributes);
    RelevantOfPair(ps[2], ps[3], attributes);
  }

  lemma RelevantBehind(attributes: set<string>)
    ensures RelevantNames(PARAMETERS[4..], attributes) ==
            if "cluster-dns" in attributes || "node-local-dns" in attributes then ["max_qps", "query_file"]
            else ["kubedns_cpu", "coredns_cpu", "max_qps", "query_file"]
  {
    hide RelevantNames;
    var ps := PARAMETERS[4..];
    assert ps == [ps[0], ps[1]] + [ps[2], ps[3]];
    RelevantOfTwo([ps[0], ps[1]], [ps[2], ps[3]], attributes);
    RelevantOfPair(ps[0], ps[1], attributes);
    RelevantOfPair(ps[2], ps[3], attributes);
  }

  lemma RelevantOfPair(p: Param, q: Param, attributes: set<string>)
    ensures RelevantNames([p, q], attributes) ==
            (if p.IsRelevant(attributes) then [p.name] else []) + (if q.IsRelevant(attributes) then [q.name] else [])
  {
    assert [p, q] == [p] + [q];
    RelevantOfTwo([p], [q], attributes);
    RelevantOfOne(p, attributes);
    RelevantOfOne(q, attributes);
  }

  /** The axes, by name, are the parameters that apply and have values. */
  lemma {:induction false} AxesAre<V>(params: seq<Param>, values: map<string, seq<V>>, attributes: set<string>)
    ensures AreNamed(Axes(params, values, attributes), Kept(RelevantNames(params, attributes), values), values)
  {
    if params != [] {
      var param, rest := params[0], RelevantNames(params[1..], attributes);
      AxesAre(params[1..], values, attributes);
      KeptOne(param.name, rest, values);
      if param.name in values && param.IsRelevant(attributes) {
        AreNamedOne(Axes(params[1..], values, attributes), Kept(rest, values), values, param);
      }
      hide AreNamed, Kept;
      assert [] + rest == rest;
    }
  }

  ghost predicate AreNamed<V>(axes: seq<Axis<V>>, names: seq<string>, values: map<string, seq<V>>)
    requires forall name :: name in names ==> name in values
  {
    && |axes| == |names|
    && forall k :: 0 <= k < |axes| ==> axes[k].param.name == names[k] && axes[k].values == values[names[k]]
  }

  lemma AreNamedOne<V>(axes: seq<Axis<V>>, names: seq<string>, values: map<string, seq<V>>, param: Param)
    requires (forall name :: name in names ==> name in values) && param.name in values
    requires AreNamed(axes, names, values)
    ensures AreNamed([Axis(param, values[param.name])] + axes, [param.name] + names, values)
  {
  }

  lemma KeptOne<V>(name: string, names: seq<string>, values: map<string, seq<V>>)
    ensures Kept([name] + names, values) == if name in values then [name] + Kept(names, values) else Kept(names, values)
  {
    assert ([name] + names)[1..] == names;
  }

  /** The cases hold, by name and value, every choice of one value for each of the names, and nothing else. */
  ghost predicate HoldsChoices<V(!new)>(cases: seq<TestCase<V>>, names: seq<string>, values: map<string, seq<V>>) {
    forall c :: Holds(cases, c) <==> IsChoice(c, Kept(names, values), values)
  }

  ghost predicate Holds<V>(cases: seq<TestCase<V>>, c: seq<(string, V)>) {
    exists i :: 0 <= i < |cases| && Named(cases[i].pv) == c
  }

  lemma CasesAreChoices<V(!new)>(
      cases: seq<TestCase<V>>, values: map<string, seq<V>>, attributes: set<string>, runId: int)
    requires
      var axes := Axes(PARAMETERS, values, attributes);
      && |cases| == Size(axes)
      && forall i :: 0 <= i < Size(axes) ==> cases[i] == TestCase(runId, i, "", At(axes, i))
    ensures HoldsChoices(cases, NamesInOrder(attributes), values)
  {
    hide Axes, Size, At, Kept, NamesInOrder, IsChoice, Named;
    var axes := Axes(PARAMETERS, values, attributes);
    forall c ensures Holds(cases, c) <==> IsChoice(c, Kept(NamesInOrder(attributes), values), values) {
      GeneratesExactly(values, attributes, c);
      if i: nat :| i < Size(axes) && Named(At(axes, i)) == c {
        assert Named(cases[i].pv) == c;
      }
      if i: nat :| i < |cases| && Named(cases[i].pv) == c {
        assert Named(At(axes, i)) == c;
      }
    }
  }

  /** What is generated, by name and value, is every choice of one value for each parameter that applies. */
  lemma GeneratesExactly<V>(values: map<string, seq<V>>, attributes: set<string>, c: seq<(string, V)>)
    ensures
      var axes := Axes(PARAMETERS, values, attributes);
      (exists i: nat :: i < Size(axes) && Named(At(axes, i)) == c) <==>
      IsChoice(c, Kept(NamesInOrder(attributes), values), values)
  {
    hide Axes, Size, At, Kept, NamesInOrder, RelevantNames;
    var axes := Axes(PARAMETERS, values, attributes);
    RelevantInOrder(attributes);
    AxesAre(PARAMETERS, values, attributes);
    if i: nat :| i < Size(axes) && Named(At(axes, i)) == c {
      AtIsCombination(axes, i);
    }
    if IsChoice(c, Kept(NamesInOrder(attributes), values), values) {
      var settings := seq(|axes|, k requires 0 <= k < |axes| => (axes[k].param, c[k].1));
      assert Named(settings) == c;
      EveryCombination(axes, settings);
      var i: nat :| i < Size(axes) && At(axes, i) == settings;
      assert Named(At(axes, i)) == c;
    }
  }

  // ----- How often the leading parameters change -----

  /** How many elements differ from the one before. */
  ghost function Changes<T>(s: seq<T>): nat {
    if |s| <= 1 then 0
    else Changes(s[..|s| - 1]) + if s[|s| - 1] != s[|s| - 2] then 1 else 0
  }

  /** What each entry assigns to its first `j` parameters. */
  ghost function Leading<T>(list: seq<seq<T>>, j: nat): (r: seq<seq<T>>)
    requires forall k :: 0 <= k < |list| ==> j <= |list[k]|
    ensures |r| == |list|
  {
    seq(|list|, k requires 0 <= k < |list| => list[k][..j])
  }

  ghost function Generated<V>(axes: seq<Axis<V>>): (r: seq<seq<Setting<V>>>)
    ensures |r| == Size(axes) && forall k :: 0 <= k < |r| ==> r[k] == At(axes, k)
  {
    seq(Size(axes), i requires 0 <= i < Size(axes) => At(axes, i))
  }

  lemma {:induction false} SizeSplit<V>(axes: seq<Axis<V>>, j: nat)
    requires j <= |axes|
    ensures Size(axes) == Mul(Size(axes[..j]), Size(axes[j..]))
  {
    if j == 0 {
      assert axes[0..] == axes;
      MulDistributes(0, 0, Size(axes));
    } else {
      hide Mul;
      SizeSplit(axes[1..], j - 1);
      assert axes[1..][..j - 1] == axes[..j][1..];
      assert axes[1..][j - 1..] == axes[j..];
      MulAssociative(|axes[0].values|, Size(axes[..j][1..]), Size(axes[j..]));
    }
  }

  /** The leading digits of a position are the digits of a quotient. */
  lemma {:induction false} LeadingDigits<V>(axes: seq<Axis<V>>, j: nat, i: nat)
    requires j <= |axes| && i < Size(axes)
    ensures Size(axes[j..]) > 0 && Quot(i, Size(axes[j..])) < Size(axes[..j])
    ensures Digits(axes, i)[..j] == Digits(axes[..j], Quot(i, Size(axes[j..])))
  {
    hide Mul, Quot, Rem, Size, Digits;
    var tail := Size(axes[j..]);
    SizeSplit(axes, j);
    QuotBelow(i, Size(axes[..j]), tail);
    if j == 0 {
      NoDigits(axes[..j], Quot(i, tail));
    } else {
      var head, tails := axes[..j], axes[1..];
      assert tails[j - 1..] == axes[j..] && tails[..j - 1] == head[1..];
      var rest, inner := Size(tails), Size(head[1..]);
      DigitsFirst(axes, i);
      DigitsFirst(head, Quot(i, tail));
      LeadingDigits(tails, j - 1, Rem(i, rest));
      SizeSplit(tails, j - 1);
      NestedQuot(i, inner, tail);
      TakeCons(Quot(i, rest), Digits(tails, Rem(i, rest)), j);
    }
  }

  lemma NoDigits<V>(axes: seq<Axis<V>>, i: nat)
    requires axes == [] && i < Size(axes)
    ensures Digits(axes, i) == []
  {
  }

  lemma TakeCons<T>(first: T, rest: seq<T>, j: nat)
    requires 0 < j <= |rest| + 1
    ensures ([first] + rest)[..j] == [first] + rest[..j - 1]
  {
  }

  lemma {:induction false} LeadingAt<V>(axes: seq<Axis<V>>, j: nat, i: nat)
    requires j <= |axes| && i < Size(axes)
    ensures Size(axes[j..]) > 0 && Quot(i, Size(axes[j..])) < Size(axes[..j])
    ensures At(axes, i)[..j] == At(axes[..j], Quot(i, Size(axes[j..])))
  {
    LeadingDigits(axes, j, i);
    hide Digits, Size, Quot;
  }

  /** A sequence made of blocks of `b` equal elements, neighbouring blocks different, changes once per block
      boundary. */
  lemma {:induction false} BlockChanges<T>(s: seq<T>, blocks: seq<T>, b: nat, n: nat)
    requires b > 0 && 0 < n <= |s|
    requires forall i: nat :: i < |s| ==> Quot(i, b) < |blocks| && s[i] == blocks[Quot(i, b)]
    requires forall v, w :: 0 <= v < w < |blocks| ==> blocks[v] != blocks[w]
    ensures Changes(s[..n]) == Quot(n - 1, b)
  {
    hide Quot;
    NextQuot(0, b);
    if n > 1 {
      BlockChanges(s, blocks, b, n - 1);
      assert s[..n][..n - 1] == s[..n - 1];
      assert s[n - 1] == blocks[Quot(n - 1, b)] && s[n - 2] == blocks[Quot(n - 2, b)];
      NextQuot(n - 2, b);
    }
  }

  /** Along the generated list the assignment to the first `j` parameters changes once for each of
      its values but the first. */
  lemma {:induction false} LeadingChangesRarely<V>(axes: seq<Axis<V>>, j: nat)
    requires DistinctValues(axes) && Size(axes) > 0 && j <= |axes|
    ensures Changes(Leading(Generated(axes), j)) == Size(axes[..j]) - 1
  {
    hide Mul, Quot, Size, At, Changes, DistinctValues;
    var s := Leading(Generated(axes), j);
    var tail := Size(axes[j..]);
    SizeSplit(axes, j);
    LeadingAt(axes, j, 0);
    var blocks := Generated(axes[..j]);
    forall i: nat | i < |s| ensures Quot(i, tail) < |blocks| && s[i] == blocks[Quot(i, tail)] {
      LeadingAt(axes, j, i);
    }
    DistinctPrefix(axes, j);
    GeneratedDistinct(axes[..j]);
    BlockChanges(s, blocks, tail, |s|);
    assert s[..|s|] == s;
    LastQuot(Size(axes[..j]), tail);
  }

  lemma DistinctPrefix<V>(axes: seq<Axis<V>>, j: nat)
    requires DistinctValues(axes) && j <= |axes|
    ensures DistinctValues(axes[..j])
  {
  }

  lemma GeneratedDistinct<V>(axes: seq<Axis<V>>)
    requires DistinctValues(axes)
    ensures forall v, w :: 0 <= v < w < |Generated(axes)| ==> Generated(axes)[v] != Generated(axes)[w]
  {
    hide Size;
    forall v, w | 0 <= v < w < Size(axes) ensures Generated(axes)[v] != Generated(axes)[w] {
      AtMostOnce(axes, v, w);
    }
  }

  ghost function Elements<T>(s: seq<T>): set<T> {
    set k | 0 <= k < |s| :: s[k]
  }

  lemma {:induction false} ElementsBound<T>(s: seq<T>)
    ensures |Elements(s)| <= Changes(s) + 1
  {
    if s == [] {
      assert Elements(s) == {};
    } else if |s| == 1 {
      assert Elements(s) == {s[0]};
    } else {
      var init, last := s[..|s| - 1], s[|s| - 1];
      ElementsBound(init);
      assert Elements(s) == Elements(init) + {last};
      if last == s[|s| - 2] {
        assert init[|init| - 1] in Elements(init);
        assert Elements(s) == Elements(init);
      }
    }
  }

  lemma {:induction false} DistinctSize<T>(s: seq<T>)
    requires forall v, w :: 0 <= v < w < |s| ==> s[v] != s[w]
    ensures |Elements(s)| == |s|
  {
    if s == [] {
      assert Elements(s) == {};
    } else {
      var init, last := s[..|s| - 1], s[|s| - 1];
      DistinctSize(init);
      assert Elements(s) == Elements(init) + {last};
      assert last !in Elements(init);
    }
  }

  lemma LeadingCovered<V>(axes: seq<Axis<V>>, list: seq<seq<Setting<V>>>, j: nat, v: nat)
    requires Size(axes) > 0 && j <= |axes| && v < Size(axes[..j])
    requires forall k :: 0 <= k < |list| ==> j <= |list[k]|
    requires forall i: nat :: i < Size(axes) ==> At(axes, i) in list
    ensures At(axes[..j], v) in Elements(Leading(list, j))
  {
    hide Mul, Quot, Size, At;
    var tail := Size(axes[j..]);
    var i := Mul(v, tail);
    BlockStart(axes, j, v);
    LeadingAt(axes, j, i);
    assert At(axes, i) in list;
    var k :| 0 <= k < |list| && list[k] == At(axes, i);
    assert Leading(list, j)[k] == At(axes[..j], v);
  }

  lemma BlockStart<V>(axes: seq<Axis<V>>, j: nat, v: nat)
    requires Size(axes) > 0 && j <= |axes| && v < Size(axes[..j])
    ensures Size(axes[j..]) > 0 && Mul(v, Size(axes[j..])) < Size(axes)
    ensures Quot(Mul(v, Size(axes[j..])), Size(axes[j..])) == v
  {
    hide Mul, Quot, Rem, Size;
    SizeSplit(axes, j);
    var tail := Size(axes[j..]);
    MulPositive(Size(axes[..j]), tail);
    MulMonotone(v + 1, Size(axes[..j]), tail);
    MulDistributes(v, 1, tail);
    QuotOf(v, tail, 0);
  }

  /** No list that covers every combination changes the first `j` parameters less often, for any
      `j`: running the most disruptive parameters first costs the fewest restarts. */
  lemma {:induction false} GeneratedOrderIsBest<V>(axes: seq<Axis<V>>, list: seq<seq<Setting<V>>>, j: nat)
    requires DistinctValues(axes) && Size(axes) > 0 && j <= |axes|
    requires forall k :: 0 <= k < |list| ==> j <= |list[k]|
    requires forall i: nat :: i < Size(axes) ==> At(axes, i) in list
    ensures Changes(Leading(Generated(axes), j)) <= Changes(Leading(list, j))
  {
    hide Mul, Quot, Changes, Size, At, Digits, DistinctValues;
    LeadingChangesRarely(axes, j);
    DistinctPrefix(axes, j);
    ElementsBound(Leading(list, j));
    var blocks := Generated(axes[..j]);
    GeneratedDistinct(axes[..j]);
    DistinctSize(blocks);
    forall c | c in Elements(blocks) ensures c in Elements(Leading(list, j)) {
      var v: nat :| v < |blocks| && blocks[v] == c;
      LeadingCovered(axes, list, j, v);
    }
    SubsetSize(Elements(Leading(list, j)), Elements(blocks));
  }
}
