/**
 The request counts of the API server (parseApiserverRequestCount in perfdash/parser.go and
 Builds.AddBuildData in perfdash/metrics-downloader-helper.go): samples that agree on their
 cleaned labels are added up in one data item. The item already stored under its build is
 updated through the data map it shares with the item kept in the result map.
 */
module RequestCount {
  import opened Wrappers
  import opened MapId

  type Labels = map<string, string>

  /** One sample of the metric: its labels and its value. */
  datatype Sample = Sample(metric: Labels, value: real)

  /**
   What the two regular expressions make of a client label: the label without the commit and
   the version, and the version if there is one.
   */
  type Cleaner = string -> (string, Option<string>)

  // ----- What one sample contributes -----

  function CleanLabels(clean: Cleaner, metric: Labels): Labels {
    var labels := metric - {"__name__", "contentType"};
    if "client" in labels then labels["client" := clean(labels["client"]).0] else labels
  }

  function DataLabel(clean: Cleaner, metric: Labels): string {
    if "client" in metric && clean(metric["client"]).1.Some? then clean(metric["client"]).1.value
    else "RequestCount"
  }

  /** Exactly two labels are dropped, and no other but the client's is changed. */
  lemma CleanLabelsMean(clean: Cleaner, metric: Labels)
    ensures CleanLabels(clean, metric).Keys == metric.Keys - {"__name__", "contentType"}
    ensures forall k :: k in CleanLabels(clean, metric) ==>
      CleanLabels(clean, metric)[k] == if k == "client" then clean(metric[k]).0 else metric[k]
  {
    if "client" in metric {
      assert metric.Keys - {"__name__", "contentType"} == metric.Keys - {"__name__", "contentType"} + {"client"};
    }
  }

  ghost function Id(clean: Cleaner, sample: Sample): string {
    MapId.MapId(CleanLabels(clean, sample.metric))
  }

  // ----- The groups the samples form -----

  /** The labels of an item and the content of its data map. */
  datatype Group = Group(labels: Labels, data: map<string, real>)

  function Get(data: map<string, real>, name: string): real {
    if name in data then data[name] else 0.0
  }

  /** The position of the group with the identifier `id`, or the number of groups. */
  ghost function Find(groups: seq<Group>, id: string): (i: nat)
    ensures i <= |groups|
  {
    if groups == [] then 0
    else if MapId.MapId(groups[0].labels) == id then 0
    else Find(groups[1..], id) + 1
  }

  lemma {:induction false} FindFinds(groups: seq<Group>, id: string)
    ensures Find(groups, id) < |groups| ==> MapId.MapId(groups[Find(groups, id)].labels) == id
    ensures forall j :: 0 <= j < Find(groups, id) ==> MapId.MapId(groups[j].labels) != id
  {
    hide MapId.MapId;
    if groups != [] {
      FindFinds(groups[1..], id);
    }
  }

  function Added(group: Group, name: string, value: real): Group {
    group.(data := group.data[name := Get(group.data, name) + value])
  }

  /** A sample is added to its group, or starts a group of its own. */
  ghost function AddSample(clean: Cleaner, groups: seq<Group>, sample: Sample): (r: seq<Group>)
    ensures |r| == if Find(groups, Id(clean, sample)) < |groups| then |groups| else |groups| + 1
  {
    var i, name := Find(groups, Id(clean, sample)), DataLabel(clean, sample.metric);
    if i < |groups| then
      groups[i := Added(groups[i], name, sample.value)]
    else
      groups + [Group(CleanLabels(clean, sample.metric), map[name := sample.value])]
  }

  ghost function Groups(clean: Cleaner, samples: seq<Sample>): seq<Group> {
    if samples == [] then []
    else AddSample(clean, Groups(clean, samples[..|samples| - 1]), samples[|samples| - 1])
  }

  /** No two groups have the same identifier. */
  lemma {:induction false} GroupsAreDistinct(clean: Cleaner, samples: seq<Sample>)
    ensures forall i, j :: 0 <= i < j < |Groups(clean, samples)| ==>
      MapId.MapId(Groups(clean, samples)[i].labels) != MapId.MapId(Groups(clean, samples)[j].labels)
  {
    hide MapId.MapId, Find;
    if samples != [] {
      var n := |samples| - 1;
      GroupsAreDistinct(clean, samples[..n]);
      FindFinds(Groups(clean, samples[..n]), Id(clean, samples[n]));
    }
  }

  // ----- The sum a group holds -----

  ghost predicate Matches(clean: Cleaner, sample: Sample, id: string, name: string) {
    Id(clean, sample) == id && DataLabel(clean, sample.metric) == name
  }

  /** The sum of the samples with this identifier and this data label. */
  ghost function SumFor(clean: Cleaner, samples: seq<Sample>, id: string, name: string): real {
    if samples == [] then 0.0
    else
      SumFor(clean, samples[..|samples| - 1], id, name)
      + if Matches(clean, samples[|samples| - 1], id, name) then samples[|samples| - 1].value else 0.0
  }

  /** Some sample has this identifier and this data label. */
  ghost predicate Occurs(clean: Cleaner, samples: seq<Sample>, id: string, name: string) {
    exists k :: 0 <= k < |samples| && Matches(clean, samples[k], id, name)
  }

  /** The data of the group found for `id`, or nothing. */
  ghost function DataOf(groups: seq<Group>, id: string): map<string, real> {
    if Find(groups, id) < |groups| then groups[Find(groups, id)].data else map[]
  }

  ghost predicate Holds(clean: Cleaner, samples: seq<Sample>, groups: seq<Group>, id: string, name: string) {
    var data := DataOf(groups, id);
    (name in data <==> Occurs(clean, samples, id, name)) &&
    (name in data ==> data[name] == SumFor(clean, samples, id, name))
  }

  /**
   For every identifier and data label, the group of the identifier holds the label exactly
   when a sample has both, and then its value is the sum of those samples.
   */
  lemma {:induction false} GroupsHoldSums(clean: Cleaner, samples: seq<Sample>, id: string, name: string)
    ensures Holds(clean, samples, Groups(clean, samples), id, name)
  {
    hide Matches, AddSample, Occurs, Find;
    if samples == [] {
      OccursNever(clean, id, name);
    } else {
      var n := |samples| - 1;
      var before, groups := Groups(clean, samples[..n]), Groups(clean, samples);
      GroupsHoldSums(clean, samples[..n], id, name);
      OccursStep(clean, samples, id, name);
      SumIsZero(clean, samples[..n], id, name);
      DataAfterAdd(clean, before, samples[n], id, name);
    }
  }

  /** Adding a sample changes one value of one group. */
  lemma DataAfterAdd(clean: Cleaner, groups: seq<Group>, sample: Sample, id: string, name: string)
    ensures
      var before, after := DataOf(groups, id), DataOf(AddSample(clean, groups, sample), id);
      if Matches(clean, sample, id, name) then name in after && after[name] == Get(before, name) + sample.value
      else (name in after <==> name in before) && Get(after, name) == Get(before, name)
  {
    hide Id, Find, CleanLabels, DataLabel;
    FindAfterAdd(clean, groups, sample, id);
    FindFinds(groups, id);
    FindFinds(groups, Id(clean, sample));
  }

  lemma OccursNever(clean: Cleaner, id: string, name: string)
    ensures !Occurs(clean, [], id, name)
  {
  }

  lemma OccursStep(clean: Cleaner, samples: seq<Sample>, id: string, name: string)
    requires samples != []
    ensures Occurs(clean, samples, id, name) <==>
            Occurs(clean, samples[..|samples| - 1], id, name) ||
            Matches(clean, samples[|samples| - 1], id, name)
  {
    hide Matches;
    var n := |samples| - 1;
    if Occurs(clean, samples[..n], id, name) {
      var k :| 0 <= k < n && Matches(clean, samples[..n][k], id, name);
      assert Matches(clean, samples[k], id, name);
    }
    if Occurs(clean, samples, id, name) {
      var k :| 0 <= k <= n && Matches(clean, samples[k], id, name);
      assert k < n ==> samples[..n][k] == samples[k];
    }
  }

  lemma {:induction false} SumIsZero(clean: Cleaner, samples: seq<Sample>, id: string, name: string)
    ensures !Occurs(clean, samples, id, name) ==> SumFor(clean, samples, id, name) == 0.0
  {
    hide Matches;
    if samples != [] {
      OccursStep(clean, samples, id, name);
      SumIsZero(clean, samples[..|samples| - 1], id, name);
    }
  }

  /** Where a group is found after a sample was added. */
  lemma FindAfterAdd(clean: Cleaner, groups: seq<Group>, sample: Sample, id: string)
    ensures
      var r := AddSample(clean, groups, sample);
      Find(r, id) == if Find(groups, id) == |groups| && Id(clean, sample) != id then |r| else Find(groups, id)
  {
    hide MapId.MapId, Find, CleanLabels, DataLabel;
    var r, i := AddSample(clean, groups, sample), Find(groups, id);
    FindFinds(groups, id);
    FindFinds(groups, Id(clean, sample));
    assert forall k :: 0 <= k < |groups| ==> r[k].labels == groups[k].labels;
    FindIs(r, id, if i == |groups| && Id(clean, sample) != id then |r| else i);
  }

  lemma FindIs(groups: seq<Group>, id: string, i: nat)
    requires i <= |groups| && (i < |groups| ==> MapId.MapId(groups[i].labels) == id)
    requires forall k :: 0 <= k < i ==> MapId.MapId(groups[k].labels) != id
    ensures Find(groups, id) == i
  {
    hide MapId.MapId, Find;
    FindFinds(groups, id);
  }

  // ----- Whose labels a group carries -----

  ghost predicate FromSample(clean: Cleaner, samples: seq<Sample>, labels: Labels) {
    exists k :: 0 <= k < |samples| && labels == CleanLabels(clean, samples[k].metric)
  }

  lemma {:induction false} LabelsComeFromSamples(clean: Cleaner, samples: seq<Sample>, i: nat)
    requires i < |Groups(clean, samples)|
    ensures FromSample(clean, samples, Groups(clean, samples)[i].labels)
  {
    hide Id, CleanLabels, DataLabel;
    var n := |samples| - 1;
    var before := Groups(clean, samples[..n]);
    if i < |before| {
      LabelsComeFromSamples(clean, samples[..n], i);
      var k :| 0 <= k < n && before[i].labels == CleanLabels(clean, samples[..n][k].metric);
      assert samples[..n][k] == samples[k];
    } else {
      assert Groups(clean, samples)[i].labels == CleanLabels(clean, samples[n].metric);
    }
  }

  /** Unless a label imitates another, a sample is added to an item with its own labels. */
  lemma SampleIsAddedUnderItsLabels(clean: Cleaner, samples: seq<Sample>, k: nat)
    requires k < |samples|
    requires forall j :: 0 <= j < |samples| ==> Unambiguous(CleanLabels(clean, samples[j].metric))
    ensures
      var groups, i := Groups(clean, samples), Find(Groups(clean, samples), Id(clean, samples[k]));
      i < |groups| && groups[i].labels == CleanLabels(clean, samples[k].metric)
  {
    hide Groups, CleanLabels, MapId.MapId, Unambiguous;
    var groups, id := Groups(clean, samples), Id(clean, samples[k]);
    var name := DataLabel(clean, samples[k].metric);
    GroupsHoldSums(clean, samples, id, name);
    assert Matches(clean, samples[k], id, name);
    var i := Find(groups, id);
    FindFinds(groups, id);
    LabelsComeFromSamples(clean, samples, i);
    var j :| 0 <= j < |samples| && groups[i].labels == CleanLabels(clean, samples[j].metric);
    MapIdIsInvertible(groups[i].labels, CleanLabels(clean, samples[k].metric));
  }

  /** The first sample with an identifier decides which labels the item carries. */
  lemma {:induction false} FirstSampleDecides(clean: Cleaner, samples: seq<Sample>, j: nat)
    requires j < |samples| && forall i :: 0 <= i < j ==> Id(clean, samples[i]) != Id(clean, samples[j])
    ensures
      var groups, i := Groups(clean, samples), Find(Groups(clean, samples), Id(clean, samples[j]));
      i < |groups| && groups[i].labels == CleanLabels(clean, samples[j].metric)
  {
    hide Find, CleanLabels, DataLabel, Id, AddSample, MapId.MapId;
    var n, id := |samples| - 1, Id(clean, samples[j]);
    var before := Groups(clean, samples[..n]);
    LabelsAfterAdd(clean, before, samples[n], id);
    if j < n {
      FirstSampleDecides(clean, samples[..n], j);
    } else {
      NewIdentifier(clean, samples[..n], id);
    }
  }

  /** Adding a sample changes the labels of no group, and a new one carries those of the sample. */
  lemma LabelsAfterAdd(clean: Cleaner, groups: seq<Group>, sample: Sample, id: string)
    ensures
      var r, i := AddSample(clean, groups, sample), Find(groups, id);
      && (i < |groups| ==> Find(r, id) == i < |r| && r[i].labels == groups[i].labels)
      && (i == |groups| && Id(clean, sample) == id ==>
          Find(r, id) == i < |r| && r[i].labels == CleanLabels(clean, sample.metric))
  {
    hide Find, Id, CleanLabels, DataLabel;
    FindAfterAdd(clean, groups, sample, id);
    FindFinds(groups, id);
  }

  lemma {:induction false} NewIdentifier(clean: Cleaner, samples: seq<Sample>, id: string)
    requires forall i :: 0 <= i < |samples| ==> Id(clean, samples[i]) != id
    ensures Find(Groups(clean, samples), id) == |Groups(clean, samples)|
  {
    hide Find, Groups, CleanLabels, MapId.MapId;
    var groups := Groups(clean, samples);
    forall i | 0 <= i < |groups| ensures MapId.MapId(groups[i].labels) != id {
      LabelsComeFromSamples(clean, samples, i);
      var k :| 0 <= k < |samples| && groups[i].labels == CleanLabels(clean, samples[k].metric);
      assert Id(clean, samples[k]) != id;
    }
    FindIs(groups, id, |groups|);
  }

  lemma {:induction false} FirstWithId(clean: Cleaner, samples: seq<Sample>, k: nat) returns (j: nat)
    requires k < |samples|
    ensures j <= k && Id(clean, samples[j]) == Id(clean, samples[k])
    ensures forall i :: 0 <= i < j ==> Id(clean, samples[i]) != Id(clean, samples[k])
  {
    hide Id;
    j := k;
    if i :| 0 <= i < k && Id(clean, samples[i]) == Id(clean, samples[k]) {
      j := FirstWithId(clean, samples, i);
    }
  }

  /** The item of every sample carries the labels of that sample. */
  ghost predicate UnderOwnLabels(clean: Cleaner, samples: seq<Sample>) {
    var groups := Groups(clean, samples);
    forall k :: 0 <= k < |samples| ==>
      var i := Find(groups, Id(clean, samples[k]));
      i < |groups| && groups[i].labels == CleanLabels(clean, samples[k].metric)
  }

  /** Samples with the same identifier have the same labels. */
  ghost predicate NoneImitates(clean: Cleaner, samples: seq<Sample>) {
    forall j, k :: 0 <= j < |samples| && 0 <= k < |samples| && Id(clean, samples[j]) == Id(clean, samples[k]) ==>
      CleanLabels(clean, samples[j].metric) == CleanLabels(clean, samples[k].metric)
  }

  /** All samples are added under their own labels exactly when none of them imitates another. */
  lemma {:induction false} UnderOwnLabelsExactly(clean: Cleaner, samples: seq<Sample>)
    ensures UnderOwnLabels(clean, samples) <==> NoneImitates(clean, samples)
  {
    hide Find, Groups, CleanLabels, Id;
    if NoneImitates(clean, samples) {
      forall k | 0 <= k < |samples|
        ensures
          var groups, i := Groups(clean, samples), Find(Groups(clean, samples), Id(clean, samples[k]));
          i < |groups| && groups[i].labels == CleanLabels(clean, samples[k].metric)
      {
        var j := FirstWithId(clean, samples, k);
        FirstSampleDecides(clean, samples, j);
      }
    }
  }

  // ----- Under which name a sample is shown -----

  /** The version of the client, if the sample has one. */
  function Version(clean: Cleaner, metric: Labels): Option<string> {
    if "client" in metric then clean(metric["client"]).1 else None
  }

  /** The item of a sample shows it under the version of its client, or as a request count without one. */
  lemma SampleIsShown(clean: Cleaner, samples: seq<Sample>, j: nat)
    requires j < |samples|
    ensures
      var data := DataOf(Groups(clean, samples), Id(clean, samples[j]));
      match Version(clean, samples[j].metric)
      case Some(version) => version in data
      case None => "RequestCount" in data
  {
    hide Groups, CleanLabels, MapId.MapId, Find;
    var id, name := Id(clean, samples[j]), DataLabel(clean, samples[j].metric);
    GroupsHoldSums(clean, samples, id, name);
    assert Matches(clean, samples[j], id, name);
  }

  /** And an item shows nothing else. */
  lemma ShownIsOfSample(clean: Cleaner, samples: seq<Sample>, id: string, name: string) returns (j: nat)
    requires name in DataOf(Groups(clean, samples), id)
    ensures j < |samples| && Id(clean, samples[j]) == id
    ensures
      match Version(clean, samples[j].metric)
      case Some(version) => name == version
      case None => name == "RequestCount"
  {
    hide Groups, CleanLabels, MapId.MapId, Find;
    GroupsHoldSums(clean, samples, id, name);
    j :| j < |samples| && Matches(clean, samples[j], id, name);
  }

  // ----- Nothing is lost -----

  ghost function SumOf(data: map<string, real>): real {
    if data == map[] then 0.0
    else
      var k :| k in data;
      data[k] + SumOf(data - {k})
  }

  lemma {:induction false} SumOfAny(data: map<string, real>, k: string)
    requires k in data
    ensures SumOf(data) == data[k] + SumOf(data - {k})
    decreases |data|
  {
    var first :| first in data && SumOf(data) == data[first] + SumOf(data - {first});
    if first != k {
      SumOfAny(data - {first}, k);
      SumOfAny(data - {k}, first);
      assert data - {first} - {k} == data - {k} - {first};
    }
  }

  lemma SumOfNothing()
    ensures SumOf(map[]) == 0.0
  {
  }

  lemma SumOfUpdate(data: map<string, real>, k: string, value: real)
    ensures SumOf(data[k := Get(data, k) + value]) == SumOf(data) + value
  {
    var updated := data[k := Get(data, k) + value];
    SumOfAny(updated, k);
    assert updated - {k} == data - {k};
    if k in data {
      SumOfAny(data, k);
    } else {
      assert data - {k} == data;
    }
  }

  ghost function GrandTotal(groups: seq<Group>): real {
    if groups == [] then 0.0
    else GrandTotal(groups[..|groups| - 1]) + SumOf(groups[|groups| - 1].data)
  }

  lemma {:induction false} GrandTotalUpdate(groups: seq<Group>, i: nat, group: Group)
    requires i < |groups|
    ensures GrandTotal(groups[i := group]) == GrandTotal(groups) - SumOf(groups[i].data) + SumOf(group.data)
  {
    var n := |groups| - 1;
    if i == n {
      assert groups[i := group][..n] == groups[..n];
    } else {
      GrandTotalUpdate(groups[..n], i, group);
      assert groups[i := group][..n] == groups[..n][i := group];
    }
  }

  ghost function Sum(samples: seq<Sample>): real {
    if samples == [] then 0.0 else Sum(samples[..|samples| - 1]) + samples[|samples| - 1].value
  }

  /** The items together hold the sum of all samples. */
  lemma {:induction false} Conservation(clean: Cleaner, samples: seq<Sample>)
    ensures GrandTotal(Groups(clean, samples)) == Sum(samples)
  {
    if samples != [] {
      var n := |samples| - 1;
      Conservation(clean, samples[..n]);
      AddSampleTotal(clean, Groups(clean, samples[..n]), samples[n]);
    }
  }

  lemma AddSampleTotal(clean: Cleaner, groups: seq<Group>, sample: Sample)
    ensures GrandTotal(AddSample(clean, groups, sample)) == GrandTotal(groups) + sample.value
  {
    hide Id, CleanLabels, DataLabel, SumOf, Find;
    var i, name := Find(groups, Id(clean, sample)), DataLabel(clean, sample.metric);
    var r := AddSample(clean, groups, sample);
    if i < |groups| {
      SumOfUpdate(groups[i].data, name, sample.value);
      GrandTotalUpdate(groups, i, r[i]);
    } else {
      assert r[..|groups|] == groups;
      SumOfAny(map[name := sample.value], name);
      assert map[name := sample.value] - {name} == map[];
      SumOfNothing();
    }
  }

  // ----- The imperative form -----

  /** A Go map: items that hold the same one see each other's updates. */
  class DataMap {
    var values: map<string, real>

    constructor ()
      ensures values == map[]
    {
      values := map[];
    }
  }

  datatype DataItem = DataItem(labels: Labels, data: DataMap)

  function Items(builds: map<string, seq<DataItem>>, build: string): seq<DataItem> {
    if build in builds then builds[build] else []
  }

  /** What is stored for all other builds. */
  function Others(builds: map<string, seq<DataItem>>, build: string): map<string, seq<DataItem>> {
    builds - {build}
  }

  lemma SameOthers(builds: map<string, seq<DataItem>>, builds': map<string, seq<DataItem>>, build: string)
    requires Others(builds, build) == Others(builds', build)
    ensures forall b :: b != build ==> (b in builds <==> b in builds') && (b in builds ==> builds[b] == builds'[b])
  {
    forall b | b != build ensures (b in builds <==> b in builds') && (b in builds ==> builds[b] == builds'[b]) {
      assert b in builds <==> b in Others(builds, build);
      assert b in builds' <==> b in Others(builds', build);
    }
  }

  class Builds {
    var builds: map<string, seq<DataItem>>

    constructor ()
      ensures builds == map[]
    {
      builds := map[];
    }

    method AddBuildData(build: string, data: DataItem)
      modifies this
      ensures Items(builds, build) == Items(old(builds), build) + [data]
      ensures Others(builds, build) == Others(old(builds), build)
      ensures build in builds
      ensures builds[build] == (if build in old(builds) then old(builds)[build] else []) + [data]
      ensures forall b :: b != build ==>
        (b in builds <==> b in old(builds)) && (b in builds ==> builds[b] == old(builds)[b])
    {
      builds := builds[build := Items(builds, build) + [data]];
    }
  }

  /** No two items share a data map. */
  ghost predicate Separate(items: seq<DataItem>) {
    forall j, k :: 0 <= j < k < |items| ==> items[j].data != items[k].data
  }

  lemma SeparateFrom(items: seq<DataItem>, k: nat)
    requires Separate(items) && k < |items|
    ensures forall j :: 0 <= j < |items| && j != k ==> items[j].data != items[k].data
  {
  }

  lemma SeparateStep(items: seq<DataItem>, item: DataItem)
    requires Separate(items) && forall k :: 0 <= k < |items| ==> items[k].data != item.data
    ensures Separate(items + [item])
  {
  }

  /** The items, in their order, show the groups. */
  ghost predicate Show(items: seq<DataItem>, groups: seq<Group>)
    reads set k | 0 <= k < |items| :: items[k].data
  {
    |items| == |groups| &&
    forall k :: 0 <= k < |items| ==>
      items[k].labels == groups[k].labels && items[k].data.values == groups[k].data
  }

  /** The result map finds the item of every identifier seen so far. */
  ghost predicate Indexes(resultMap: map<string, DataItem>, items: seq<DataItem>, groups: seq<Group>) {
    |items| == |groups| &&
    forall id ::
      (id in resultMap <==> Find(groups, id) < |groups|) &&
      (id in resultMap ==> resultMap[id] == items[Find(groups, id)])
  }

  lemma KeyIsId(clean: Cleaner, sample: Sample)
    ensures Id(clean, sample) == MapId.MapId(CleanLabels(clean, sample.metric))
  {
  }

  lemma GroupsStep(clean: Cleaner, samples: seq<Sample>, i: nat)
    requires i < |samples|
    ensures Groups(clean, samples[..i + 1]) == AddSample(clean, Groups(clean, samples[..i]), samples[i])
  {
    assert samples[..i + 1][..i] == samples[..i];
  }

  lemma ShowStep(items: seq<DataItem>, groups: seq<Group>, item: DataItem)
    requires Show(items, groups)
    ensures Show(items + [item], groups + [Group(item.labels, item.data.values)])
  {
  }

  /** The update in place: every item that shares `data` sees it, and no other does. */
  method Accumulate(data: DataMap, name: string, value: real,
                    ghost items: seq<DataItem>, ghost groups: seq<Group>, ghost k: nat)
    requires Show(items, groups) && Separate(items) && k < |items| && items[k].data == data
    modifies data
    ensures Show(items, groups[k := Added(groups[k], name, value)])
  {
    hide Separate;
    SeparateFrom(items, k);
    data.values := data.values[name := Get(data.values, name) + value];
  }

  lemma ItemsStep(was: map<string, seq<DataItem>>, before: map<string, seq<DataItem>>,
                  after: map<string, seq<DataItem>>, build: string, items: seq<DataItem>, item: DataItem)
    requires Items(before, build) == Items(was, build) + items && Others(before, build) == Others(was, build)
    requires Items(after, build) == Items(before, build) + [item] && Others(after, build) == Others(before, build)
    ensures Items(after, build) == Items(was, build) + (items + [item]) && Others(after, build) == Others(was, build)
  {
    assert Items(was, build) + items + [item] == Items(was, build) + (items + [item]);
  }

  lemma SeparateNothing()
    ensures Separate([])
  {
  }

  lemma StartsEmpty(clean: Cleaner)
    ensures Groups(clean, []) == [] && Indexes(map[], [], []) && Show([], [])
  {
  }

  /** A sample whose identifier the result map finds: the groups change at one position `k`. */
  lemma FoundStep(resultMap: map<string, DataItem>, items: seq<DataItem>, groups: seq<Group>,
                  clean: Cleaner, sample: Sample)
    returns (k: nat)
    requires Indexes(resultMap, items, groups) && Id(clean, sample) in resultMap
    ensures k < |items| == |groups| && resultMap[Id(clean, sample)] == items[k]
    ensures AddSample(clean, groups, sample)
         == groups[k := Added(groups[k], DataLabel(clean, sample.metric), sample.value)]
    ensures Indexes(resultMap, items, AddSample(clean, groups, sample))
  {
    hide Id, Find;
    k := Find(groups, Id(clean, sample));
    forall id: string ensures Find(AddSample(clean, groups, sample), id) == Find(groups, id) {
      FindAfterAdd(clean, groups, sample, id);
    }
  }

  /** A sample with a new identifier: a group and an item are appended. */
  lemma NewStep(resultMap: map<string, DataItem>, items: seq<DataItem>, groups: seq<Group>,
                clean: Cleaner, sample: Sample, item: DataItem)
    requires Indexes(resultMap, items, groups) && Id(clean, sample) !in resultMap
    ensures AddSample(clean, groups, sample)
         == groups + [Group(CleanLabels(clean, sample.metric), map[DataLabel(clean, sample.metric) := sample.value])]
    ensures Indexes(resultMap[Id(clean, sample) := item], items + [item], AddSample(clean, groups, sample))
  {
    hide Id, Find;
    forall id: string
      ensures Find(AddSample(clean, groups, sample), id) ==
        if Find(groups, id) == |groups| && Id(clean, sample) != id then |groups| + 1 else Find(groups, id)
    {
      FindAfterAdd(clean, groups, sample, id);
    }
  }

  /** A new item is added to the build; `items` are those added before, and `was` is what the builds held then. */
  method AddItem(testResult: Builds, build: string, item: DataItem,
                 ghost was: map<string, seq<DataItem>>, ghost items: seq<DataItem>, ghost groups: seq<Group>)
    requires Show(items, groups) && Separate(items)
    requires forall k :: 0 <= k < |items| ==> items[k].data != item.data
    requires Items(testResult.builds, build) == Items(was, build) + items
    requires Others(testResult.builds, build) == Others(was, build)
    modifies testResult
    ensures Show(items + [item], groups + [Group(item.labels, item.data.values)]) && Separate(items + [item])
    ensures Items(testResult.builds, build) == Items(was, build) + (items + [item])
    ensures Others(testResult.builds, build) == Others(was, build)
  {
    hide *;
    SeparateStep(items, item);
    ghost var before := testResult.builds;
    testResult.AddBuildData(build, item);
    ItemsStep(was, before, testResult.builds, build, items, item);
    ShowStep(items, groups, item);
  }

  /** The labels without the two deleted ones and with a cleaned client, and the data label. */
  method Clean(clean: Cleaner, metric: Labels) returns (labels: Labels, dataLabel: string)
    ensures labels == CleanLabels(clean, metric) && dataLabel == DataLabel(clean, metric)
  {
    labels := metric - {"__name__", "contentType"};
    dataLabel := "RequestCount";
    if "client" in labels {
      var (newClient, version) := clean(labels["client"]);
      if version.Some? {
        dataLabel := version.value;
      }
      labels := labels["client" := newClient];
    }
  }

  /** What the loop below does with one sample. */
  method ParseSample(clean: Cleaner, sample: Sample, build: string, testResult: Builds,
                     resultMap: map<string, DataItem>,
                     ghost was: map<string, seq<DataItem>>, ghost items: seq<DataItem>, ghost groups: seq<Group>)
    returns (r: map<string, DataItem>, ghost items': seq<DataItem>)
    requires Show(items, groups) && Separate(items) && Indexes(resultMap, items, groups)
    requires Items(testResult.builds, build) == Items(was, build) + items
    requires Others(testResult.builds, build) == Others(was, build)
    modifies testResult, set k | 0 <= k < |items| :: items[k].data
    ensures Show(items', AddSample(clean, groups, sample)) && Separate(items')
    ensures Indexes(r, items', AddSample(clean, groups, sample))
    ensures Items(testResult.builds, build) == Items(was, build) + items'
    ensures Others(testResult.builds, build) == Others(was, build)
    ensures items' == items || (|items'| == |items| + 1 && items'[..|items|] == items && fresh(items'[|items|].data))
  {
    hide *;
    r, items' := resultMap, items;
    var labels, dataLabel := Clean(clean, sample.metric);
    var perfData := new DataMap();
    perfData.values := perfData.values[dataLabel := sample.value];
    assert perfData.values == map[dataLabel := sample.value];
    var key := CreateMapId(labels);
    assert key == Id(clean, sample) by { KeyIsId(clean, sample); }
    if key in resultMap {
      ghost var k := FoundStep(resultMap, items, groups, clean, sample);
      Accumulate(resultMap[key].data, dataLabel, perfData.values[dataLabel], items, groups, k);
    } else {
      NewStep(resultMap, items, groups, clean, sample, DataItem(labels, perfData));
      r := resultMap[key := DataItem(labels, perfData)];
      AddItem(testResult, build, DataItem(labels, perfData), was, items, groups);
      items' := items + [DataItem(labels, perfData)];
    }
  }

  method ParseApiserverRequestCount(clean: Cleaner, samples: seq<Sample>, build: string, testResult: Builds)
    returns (ghost items: seq<DataItem>)
    modifies testResult
    ensures Show(items, Groups(clean, samples)) && Separate(items)
    ensures forall k :: 0 <= k < |items| ==> fresh(items[k].data)
    ensures Items(testResult.builds, build) == Items(old(testResult.builds), build) + items
    ensures Others(testResult.builds, build) == Others(old(testResult.builds), build)
    ensures forall b :: b != build ==>
      && (b in testResult.builds <==> b in old(testResult.builds))
      && (b in testResult.builds ==> testResult.builds[b] == old(testResult.builds)[b])
  {
    hide *;
    var resultMap: map<string, DataItem> := map[];
    items := [];
    var i := 0;
    StartsEmpty(clean);
    assert Separate(items) by { SeparateNothing(); }
    while i < |samples|
      invariant 0 <= i <= |samples|
      invariant Show(items, Groups(clean, samples[..i])) && Separate(items)
      invariant forall k :: 0 <= k < |items| ==> fresh(items[k].data)
      invariant Indexes(resultMap, items, Groups(clean, samples[..i]))
      invariant Items(testResult.builds, build) == Items(old(testResult.builds), build) + items
      invariant Others(testResult.builds, build) == Others(old(testResult.builds), build)
    {
      GroupsStep(clean, samples, i);
      resultMap, items := ParseSample(clean, samples[i], build, testResult, resultMap,
        old(testResult.builds), items, Groups(clean, samples[..i]));
      i := i + 1;
    }
    assert samples[..i] == samples;
    SameOthers(testResult.builds, old(testResult.builds), build);
  }
}
