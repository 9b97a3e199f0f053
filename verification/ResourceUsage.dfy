/**
 Aggregation of resource usage (parseResourceUsageData in perfdash/parser.go): for every
 normalised name and percentile the separate maxima of CPU and memory, in whatever order the
 decoded map is walked.
 */
module ResourceUsage {
  import opened PodNames

  datatype Item = Item(name: string, cpu: real, memory: int)

  datatype Usage = Usage(cpu: real, memory: int)

  type Samples = set<(string, Item)>

  /** A sample of `percentile` counts under `name`. */
  ghost predicate CountsFor(sample: (string, Item), name: string, percentile: string) {
    sample.0 == percentile && IsNormalised(sample.1.name, name)
  }

  ghost predicate Seen(samples: Samples, name: string, percentile: string) {
    exists s :: s in samples && CountsFor(s, name, percentile)
  }

  /** CPU and memory are each the largest of the samples; they may stem from different ones. */
  ghost predicate IsPeak(samples: Samples, name: string, percentile: string, usage: Usage) {
    && (forall s :: s in samples && CountsFor(s, name, percentile) ==>
      s.1.cpu <= usage.cpu && s.1.memory <= usage.memory)
    && (exists s :: s in samples && CountsFor(s, name, percentile) && s.1.cpu == usage.cpu)
    && (exists s :: s in samples && CountsFor(s, name, percentile) && s.1.memory == usage.memory)
  }

  /** `usage` holds the peaks of the samples and nothing else. */
  ghost predicate Peaks(usage: map<string, map<string, Usage>>, samples: Samples) {
    && (forall name, percentile ::
          (name in usage && percentile in usage[name]) <==> Seen(samples, name, percentile))
    && (forall name, percentile :: name in usage && percentile in usage[name] ==>
          IsPeak(samples, name, percentile, usage[name][percentile]))
    && (forall name :: name in usage ==> usage[name] != map[])
  }

  function Larger(a: real, b: real): real {
    if a >= b then a else b
  }

  function LargerInt(a: int, b: int): int {
    if a >= b then a else b
  }

  /** `u` is the larger of `v` and `w`, for each resource. */
  ghost predicate IsLarger(u: Usage, v: Usage, w: Usage) {
    && v.cpu <= u.cpu && w.cpu <= u.cpu && (u.cpu == v.cpu || u.cpu == w.cpu)
    && v.memory <= u.memory && w.memory <= u.memory && (u.memory == v.memory || u.memory == w.memory)
  }

  function Inner(usage: map<string, map<string, Usage>>, name: string): map<string, Usage> {
    if name in usage then usage[name] else map[]
  }

  /** One sample changes the entry of its name and percentile, if at all, and no other. */
  ghost predicate Merged(
      before: map<string, map<string, Usage>>, name: string, percentile: string, item: Item,
      after: map<string, map<string, Usage>>)
  {
    && after - {name} == before - {name} && name in after
    && after[name] - {percentile} == Inner(before, name) - {percentile} && percentile in after[name]
    && var usage, own := after[name][percentile], Usage(item.cpu, item.memory);
       if percentile in Inner(before, name) then IsLarger(usage, own, Inner(before, name)[percentile]) else usage == own
  }

  /** That determines the result. */
  lemma MergedIs(
      before: map<string, map<string, Usage>>, name: string, percentile: string, item: Item,
      after: map<string, map<string, Usage>>)
    requires Merged(before, name, percentile, item, after)
    ensures
      var inner := Inner(before, name);
      var usage :=
        if percentile in inner then
          Usage(Larger(item.cpu, inner[percentile].cpu), LargerInt(item.memory, inner[percentile].memory))
        else Usage(item.cpu, item.memory);
      after == before[name := inner[percentile := usage]]
  {
    var inner := Inner(before, name);
    assert after[name] == inner[percentile := after[name][percentile]] by {
      assert forall p :: p != percentile ==> (p in after[name] <==> p in after[name] - {percentile});
    }
    assert after == before[name := after[name]] by {
      assert forall n :: n != name ==> (n in after <==> n in after - {name});
    }
  }

  lemma MergeKeepsPeaks(
      before: map<string, map<string, Usage>>, samples: Samples, name: string, percentile: string, item: Item,
      after: map<string, map<string, Usage>>)
    requires Peaks(before, samples) && IsNormalised(item.name, name) && Merged(before, name, percentile, item, after)
    ensures Peaks(after, samples + {(percentile, item)})
  {
    hide Seen, IsPeak, CountsFor, IsNormalised, Larger, LargerInt, Merged;
    MergedIs(before, name, percentile, item, after);
    var added := (percentile, item);
    var samples' := samples + {added};
    var seen := name in before && percentile in before[name];
    assert seen <==> Seen(samples, name, percentile);
    forall n, p ensures Seen(samples', n, p) <==> Seen(samples, n, p) || (n == name && p == percentile) {
      SeenGrows(samples, added, name, n, p);
    }
    forall n, p | n in after && p in after[n] ensures IsPeak(samples', n, p, after[n][p]) {
      if n == name && p == percentile {
        PeakGrows(samples, added, name, if seen then before[name][percentile] else Usage(item.cpu, item.memory), seen);
        LargerOfSame(item.cpu, item.memory);
      } else {
        assert n in before && p in before[n];
        PeakStays(samples, added, name, n, p, before[n][p]);
      }
    }
  }

  lemma LargerOfSame(x: real, n: int)
    ensures Larger(x, x) == x && LargerInt(n, n) == n
  {
  }

  lemma SeenGrows(samples: Samples, added: (string, Item), name: string, n: string, p: string)
    requires IsNormalised(added.1.name, name)
    ensures Seen(samples + {added}, n, p) <==> Seen(samples, n, p) || (n == name && p == added.0)
  {
    if CountsFor(added, n, p) {
      NormalisedIsUnique(added.1.name, name, n);
    }
    if n == name && p == added.0 {
      assert added in samples + {added} && CountsFor(added, n, p);
    }
  }

  lemma PeakStays(samples: Samples, added: (string, Item), name: string, n: string, p: string, usage: Usage)
    requires IsNormalised(added.1.name, name) && (n != name || p != added.0)
    requires IsPeak(samples, n, p, usage)
    ensures IsPeak(samples + {added}, n, p, usage)
  {
    hide IsNormalised;
    if CountsFor(added, n, p) {
      NormalisedIsUnique(added.1.name, name, n);
    }
  }

  lemma PeakGrows(samples: Samples, added: (string, Item), name: string, usage: Usage, seen: bool)
    requires IsNormalised(added.1.name, name)
    requires if seen then IsPeak(samples, name, added.0, usage)
             else !Seen(samples, name, added.0) && usage == Usage(added.1.cpu, added.1.memory)
    ensures IsPeak(samples + {added}, name, added.0,
      Usage(Larger(added.1.cpu, usage.cpu), LargerInt(added.1.memory, usage.memory)))
  {
    hide IsNormalised;
    var samples' := samples + {added};
    assert added in samples' && CountsFor(added, name, added.0);
    if seen {
      var s :| s in samples && CountsFor(s, name, added.0) && s.1.cpu == usage.cpu;
      var t :| t in samples && CountsFor(t, name, added.0) && t.1.memory == usage.memory;
      assert s in samples' && t in samples';
    }
  }

  /** The samples of the first percentiles of `order`. */
  ghost function SamplesOf(obj: map<string, seq<Item>>, order: seq<string>): Samples {
    set p, item | p in order && p in obj && item in obj[p] :: (p, item)
  }

  /** `order` is the order in which the map happens to be walked. */
  method AggregateUsage(obj: map<string, seq<Item>>, order: seq<string>)
    returns (usage: map<string, map<string, Usage>>)
    requires forall p :: p in order <==> p in obj
    ensures Peaks(usage, SamplesOf(obj, order))
  {
    hide Peaks, IsNormalised, Merged;
    usage := map[];
    NoPeaks();
    ghost var samples: Samples := {};
    for i := 0 to |order|
      invariant samples == SamplesOf(obj, order[..i])
      invariant Peaks(usage, samples)
    {
      var percentile := order[i];
      var items := obj[percentile];
      ghost var before := samples;
      for j := 0 to |items|
        invariant samples == before + set item | item in items[..j] :: (percentile, item)
        invariant Peaks(usage, samples)
      {
        var item := items[j];
        var name := RemoveDisambiguationInfixes(item.name);
        ghost var found := usage;
        usage := Merge(usage, name, percentile, item);
        MergeKeepsPeaks(found, samples, name, percentile, item, usage);
        samples := samples + {(percentile, item)};
        assert items[..j + 1] == items[..j] + [item];
      }
      assert items[..|items|] == items;
      assert order[..i + 1] == order[..i] + [percentile];
    }
    assert order[..|order|] == order;
  }

  lemma NoPeaks()
    ensures Peaks(map[], {})
  {
  }

  method Merge(usage: map<string, map<string, Usage>>, name: string, percentile: string, item: Item)
    returns (r: map<string, map<string, Usage>>)
    ensures Merged(usage, name, percentile, item, r)
  {
    r := usage;
    if name !in r {
      r := r[name := map[]];
    }
    var cpu, memory := item.cpu, item.memory;
    if percentile in r[name] {
      var otherUsage := r[name][percentile];
      // The maximum of each resource separately, possibly of different samples.
      cpu := Larger(cpu, otherUsage.cpu);
      memory := LargerInt(memory, otherUsage.memory);
    }
    r := r[name := r[name][percentile := Usage(cpu, memory)]];
  }

  /** The order of the walk does not matter: the samples determine the peaks. */
  lemma PeaksAreUnique(a: map<string, map<string, Usage>>, b: map<string, map<string, Usage>>, samples: Samples)
    requires Peaks(a, samples) && Peaks(b, samples)
    ensures a == b
  {
    hide Peaks;
    forall name ensures name in a <==> name in b {
      KeyCarriesOver(a, b, samples, name);
      KeyCarriesOver(b, a, samples, name);
    }
    forall name | name in a ensures a[name] == b[name] {
      InnerAgrees(a, b, samples, name);
    }
  }

  /** Two walks over the same decoded map give the same result. */
  lemma OrderOfWalkIsIrrelevant(
      obj: map<string, seq<Item>>, order: seq<string>, order': seq<string>,
      a: map<string, map<string, Usage>>, b: map<string, map<string, Usage>>)
    requires (forall p :: p in order <==> p in obj) && (forall p :: p in order' <==> p in obj)
    requires Peaks(a, SamplesOf(obj, order)) && Peaks(b, SamplesOf(obj, order'))
    ensures a == b
  {
    hide Peaks;
    assert SamplesOf(obj, order) == SamplesOf(obj, order');
    PeaksAreUnique(a, b, SamplesOf(obj, order));
  }

  lemma InnerAgrees(a: map<string, map<string, Usage>>, b: map<string, map<string, Usage>>, samples: Samples,
                    name: string)
    requires Peaks(a, samples) && Peaks(b, samples) && name in a && name in b
    ensures a[name] == b[name]
  {
    hide Seen, IsPeak;
    forall p ensures p in a[name] <==> p in b[name] {
      assert p in a[name] <==> Seen(samples, name, p);
      assert p in b[name] <==> Seen(samples, name, p);
    }
    forall p | p in a[name] ensures a[name][p] == b[name][p] {
      PeakIsUnique(samples, name, p, a[name][p], b[name][p]);
    }
  }

  lemma KeyCarriesOver(a: map<string, map<string, Usage>>, b: map<string, map<string, Usage>>, samples: Samples,
                       name: string)
    requires Peaks(a, samples) && Peaks(b, samples)
    ensures name in a ==> name in b
  {
    if name in a {
      var p :| p in a[name];
      assert Seen(samples, name, p);
    }
  }

  lemma PeakIsUnique(samples: Samples, name: string, percentile: string, u: Usage, v: Usage)
    requires IsPeak(samples, name, percentile, u) && IsPeak(samples, name, percentile, v)
    ensures u == v
  {
  }
}
