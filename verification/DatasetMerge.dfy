/** Merging the datasets of one account (crates/usage-daemon/src/polling.rs) and reading a window's
    origin back from the merged records (crates/usage-core/src/model.rs). */
module DatasetMerge {
  import opened Sequences
  import opened SnapshotDetails
  import opened Wrappers

  datatype Window = Window(id: string, reading: int)

  datatype Dataset = Dataset(source: int, windows: seq<Window>, detail: Detail)

  /** `DatasetProvenance`: what one dataset contributed to the merged result. */
  datatype Record = Record(source: int, windowIds: seq<string>, metadataKeys: set<Key>)

  datatype Merged = Merged(windows: seq<Window>, detail: Detail, records: seq<Record>)

  function Ids(windows: seq<Window>): (ids: seq<string>)
    ensures |ids| == |windows|
  {
    seq(|windows|, i requires 0 <= i < |windows| => windows[i].id)
  }

  function IdSet(windows: seq<Window>): set<string> {
    set id | id in Ids(windows)
  }

  /** `provenance_record`: everything the dataset has. */
  function OwnRecord(d: Dataset): Record {
    Record(d.source, Ids(d.windows), Present(d.detail))
  }

  /** The incoming windows whose id is neither taken nor repeated. */
  function Fresh(taken: set<string>, incoming: seq<Window>): seq<Window> {
    if incoming == [] then []
    else
      var earlier, last := Fresh(taken, incoming[..|incoming| - 1]), incoming[|incoming| - 1];
      if last.id in taken || last.id in Ids(earlier) then earlier else earlier + [last]
  }

  function Add(m: Merged, d: Dataset): Merged {
    var unseen := Fresh(IdSet(m.windows), d.windows);
    Merged(m.windows + unseen, Filled(m.detail, d.detail),
           m.records + [Record(d.source, Ids(unseen), Contributed(m.detail, d.detail))])
  }

  function Merge(datasets: seq<Dataset>): Merged
    requires datasets != []
  {
    if |datasets| == 1 then Merged(datasets[0].windows, datasets[0].detail, [OwnRecord(datasets[0])])
    else Add(Merge(datasets[..|datasets| - 1]), datasets[|datasets| - 1])
  }

  // ----- The loop -----

  method AddWindows(windows: seq<Window>, taken: set<string>, incoming: seq<Window>)
    returns (all: seq<Window>, ids: set<string>, contributed: seq<string>)
    ensures all == windows + Fresh(taken, incoming) && contributed == Ids(Fresh(taken, incoming))
    ensures ids == taken + set id | id in contributed
  {
    all, ids, contributed := windows, taken, [];
    for i := 0 to |incoming|
      invariant all == windows + Fresh(taken, incoming[..i]) && contributed == Ids(Fresh(taken, incoming[..i]))
      invariant ids == taken + set id | id in contributed
    {
      assert incoming[..i + 1][..i] == incoming[..i];
      if incoming[i].id !in ids {
        ids := ids + {incoming[i].id};
        contributed := contributed + [incoming[i].id];
        all := all + [incoming[i]];
      }
    }
    assert incoming[..|incoming|] == incoming;
  }

  /** `merge_datasets`. */
  method MergeDatasets(datasets: seq<Dataset>) returns (result: Option<Merged>)
    ensures result == if datasets == [] then None else Some(Merge(datasets))
  {
    if datasets == [] {
      return None;
    }
    var windows := datasets[0].windows;
    var detail := new SnapshotDetail(datasets[0].detail);
    var keys := PresentKeys(datasets[0].detail);
    var records := [Record(datasets[0].source, Ids(windows), set k | k in keys)];
    var ids := IdSet(windows);
    assert (set k | k in keys) == Present(datasets[0].detail);
    assert datasets[..1] == [datasets[0]];
    for n := 1 to |datasets|
      invariant fresh(detail)
      invariant Merged(windows, detail.Contents(), records) == Merge(datasets[..n])
      invariant ids == IdSet(windows)
    {
      ghost var before := Merge(datasets[..n]);
      var incoming := datasets[n];
      assert datasets[..n + 1][..n] == datasets[..n];
      var contributedIds;
      windows, ids, contributedIds := AddWindows(windows, ids, incoming.windows);
      IdSetGrows(before.windows, Fresh(IdSet(before.windows), incoming.windows));
      var contributedKeys := detail.FillMissingFrom(incoming.detail);
      records := records + [Record(incoming.source, contributedIds, set k | k in contributedKeys)];
    }
    assert datasets[..|datasets|] == datasets;
    result := Some(Merged(windows, detail.Contents(), records));
  }

  lemma IdSetGrows(windows: seq<Window>, more: seq<Window>)
    ensures IdSet(windows + more) == IdSet(windows) + set id | id in Ids(more)
  {
    assert Ids(windows + more) == Ids(windows) + Ids(more);
  }

  // ----- Who contributed what -----

  lemma {:induction false} FreshIds(taken: set<string>, incoming: seq<Window>, id: string)
    ensures id in Ids(Fresh(taken, incoming)) <==> id in Ids(incoming) && id !in taken
  {
    if incoming != [] {
      var rest, last := incoming[..|incoming| - 1], incoming[|incoming| - 1];
      FreshIds(taken, rest, id);
      assert Ids(incoming) == Ids(rest) + [last.id];
      var earlier := Fresh(taken, rest);
      assert Ids(earlier + [last]) == Ids(earlier) + [last.id];
    }
  }

  /** The first window of `windows` with this id. */
  function FirstWindow(windows: seq<Window>, id: string): Option<Window> {
    if windows == [] then None
    else
      var earlier := FirstWindow(windows[..|windows| - 1], id);
      if earlier.Some? then earlier
      else if windows[|windows| - 1].id == id then Some(windows[|windows| - 1]) else None
  }

  lemma {:induction false} FirstWindowIs(windows: seq<Window>, id: string)
    ensures FirstWindow(windows, id).Some? <==> id in Ids(windows)
    ensures FirstWindow(windows, id).Some? ==> FirstWindow(windows, id).value in windows && FirstWindow(windows, id).value.id == id
  {
    if windows != [] {
      FirstWindowIs(windows[..|windows| - 1], id);
      assert Ids(windows) == Ids(windows[..|windows| - 1]) + [windows[|windows| - 1].id];
    }
  }

  /** A fresh window is the first one with its id in the dataset it comes from. */
  lemma {:induction false} FreshIsFirst(taken: set<string>, incoming: seq<Window>, w: Window)
    requires w in Fresh(taken, incoming)
    ensures FirstWindow(incoming, w.id) == Some(w)
  {
    var rest, last := incoming[..|incoming| - 1], incoming[|incoming| - 1];
    if w in Fresh(taken, rest) {
      FreshIsFirst(taken, rest, w);
    } else {
      FreshIds(taken, rest, w.id);
      FirstWindowIs(rest, w.id);
    }
  }

  lemma {:induction false} IdsOfMerge(datasets: seq<Dataset>, id: string)
    requires datasets != []
    ensures id in Ids(Merge(datasets).windows) <==> exists i :: 0 <= i < |datasets| && id in Ids(datasets[i].windows)
  {
    if |datasets| > 1 {
      var rest, last := datasets[..|datasets| - 1], datasets[|datasets| - 1];
      IdsOfMerge(rest, id);
      var m := Merge(rest);
      var taken := IdSet(m.windows);
      FreshIds(taken, last.windows, id);
      assert Ids(m.windows + Fresh(taken, last.windows)) == Ids(m.windows) + Ids(Fresh(taken, last.windows));
      if id in Ids(last.windows) {
        assert datasets[|datasets| - 1] == last;
      }
      forall i | 0 <= i < |rest|
        ensures rest[i] == datasets[i]
      {
      }
    }
  }

  lemma {:induction false} FreshIsDistinct(taken: set<string>, incoming: seq<Window>)
    ensures NoDuplicates(Ids(Fresh(taken, incoming)))
  {
    if incoming != [] {
      var rest, last := incoming[..|incoming| - 1], incoming[|incoming| - 1];
      FreshIsDistinct(taken, rest);
      var earlier := Fresh(taken, rest);
      assert Ids(earlier + [last]) == Ids(earlier) + [last.id];
      assert forall i :: 0 <= i < |earlier| ==> Ids(earlier)[i] in Ids(earlier);
    }
  }

  /** The first dataset's windows come first, as they were; and if their ids are distinct, so are those
      of the whole merge. */
  lemma {:induction false} MergeExtendsTheFirst(datasets: seq<Dataset>)
    requires datasets != []
    ensures datasets[0].windows <= Merge(datasets).windows
    ensures NoDuplicates(Ids(datasets[0].windows)) ==> NoDuplicates(Ids(Merge(datasets).windows))
  {
    if |datasets| > 1 {
      var rest, last := datasets[..|datasets| - 1], datasets[|datasets| - 1];
      MergeExtendsTheFirst(rest);
      var m := Merge(rest);
      var unseen := Fresh(IdSet(m.windows), last.windows);
      FreshIsDistinct(IdSet(m.windows), last.windows);
      assert Ids(m.windows + unseen) == Ids(m.windows) + Ids(unseen);
      forall i, j | 0 <= i < |m.windows| && 0 <= j < |unseen|
        ensures Ids(m.windows)[i] != Ids(unseen)[j]
      {
        FreshIds(IdSet(m.windows), last.windows, Ids(unseen)[j]);
        assert Ids(unseen)[j] in Ids(unseen) && Ids(m.windows)[i] in Ids(m.windows);
      }
    }
  }

  lemma {:induction false} RecordPerDataset(datasets: seq<Dataset>)
    requires datasets != []
    ensures |Merge(datasets).records| == |datasets|
    ensures forall i :: 0 <= i < |datasets| ==> Merge(datasets).records[i].source == datasets[i].source
  {
    if |datasets| > 1 {
      RecordPerDataset(datasets[..|datasets| - 1]);
    }
  }

  lemma {:induction false} RecordOf(datasets: seq<Dataset>, i: nat)
    requires i < |datasets|
    ensures |Merge(datasets).records| == |datasets|
    ensures Merge(datasets).records[i]
            == if i == 0 then OwnRecord(datasets[0])
               else
                 var m, d := Merge(datasets[..i]), datasets[i];
                 Record(d.source, Ids(Fresh(IdSet(m.windows), d.windows)), Contributed(m.detail, d.detail))
  {
    RecordPerDataset(datasets);
    if |datasets| > 1 {
      var rest := datasets[..|datasets| - 1];
      RecordPerDataset(rest);
      if i < |rest| {
        RecordOf(rest, i);
        assert rest[..i] == datasets[..i];
      }
    }
  }

  /** A record lists a window id exactly when its dataset is the first one that has it: the records'
      ids are disjoint, and together they are all ids there are. */
  lemma RecordListsFirstWriter(datasets: seq<Dataset>, i: nat, id: string)
    requires i < |datasets|
    ensures |Merge(datasets).records| == |datasets|
    ensures id in Merge(datasets).records[i].windowIds <==>
            id in Ids(datasets[i].windows) && forall j :: 0 <= j < i ==> id !in Ids(datasets[j].windows)
  {
    RecordOf(datasets, i);
    if i > 0 {
      IdsOfMerge(datasets[..i], id);
      FreshIds(IdSet(Merge(datasets[..i]).windows), datasets[i].windows, id);
    }
  }

  /** `window_provenance_from`: the first record that lists the window. */
  function Contributor(records: seq<Record>, id: string): Option<nat> {
    if records == [] then None
    else
      var earlier := Contributor(records[..|records| - 1], id);
      if earlier.Some? then earlier
      else if id in records[|records| - 1].windowIds then Some(|records| - 1) else None
  }

  lemma {:induction false} ContributorIsFirst(records: seq<Record>, id: string)
    ensures match Contributor(records, id)
            case Some(i) => i < |records| && id in records[i].windowIds && forall j :: 0 <= j < i ==> id !in records[j].windowIds
            case None => forall j :: 0 <= j < |records| ==> id !in records[j].windowIds
  {
    if records != [] {
      ContributorIsFirst(records[..|records| - 1], id);
    }
  }

  lemma {:induction false} MergedWindow(datasets: seq<Dataset>, w: Window)
    requires datasets != [] && w in Merge(datasets).windows
    ensures || w in datasets[0].windows
            || exists i :: 0 < i < |datasets| && FirstWindow(datasets[i].windows, w.id) == Some(w)
                           && forall j :: 0 <= j < i ==> w.id !in Ids(datasets[j].windows)
  {
    if |datasets| > 1 {
      var rest, last := datasets[..|datasets| - 1], datasets[|datasets| - 1];
      var m := Merge(rest);
      var taken := IdSet(m.windows);
      if w in m.windows {
        MergedWindow(rest, w);
        if w !in datasets[0].windows {
          var i :| 0 < i < |rest| && FirstWindow(rest[i].windows, w.id) == Some(w)
                   && forall j :: 0 <= j < i ==> w.id !in Ids(rest[j].windows);
          assert datasets[i] == rest[i] && forall j :: 0 <= j < i ==> datasets[j] == rest[j];
        }
      } else {
        FreshIsFirst(taken, last.windows, w);
        FirstWindowIs(last.windows, w.id);
        FreshIds(taken, last.windows, w.id);
        IdsOfMerge(rest, w.id);
        InIds(Fresh(taken, last.windows), w);
        assert forall j :: 0 <= j < |rest| ==> rest[j] == datasets[j];
      }
    }
  }

  lemma InIds(windows: seq<Window>, w: Window)
    requires w in windows
    ensures w.id in Ids(windows)
  {
    var i :| 0 <= i < |windows| && windows[i] == w;
    assert Ids(windows)[i] == w.id;
  }

  /** The provenance lookup names the dataset the window really came from: the first one with that
      id, whose window it is. */
  lemma LookupFindsTheContributor(datasets: seq<Dataset>, w: Window)
    requires datasets != [] && w in Merge(datasets).windows
    ensures var m := Merge(datasets);
            var found := Contributor(m.records, w.id);
      && found.Some? && found.value < |datasets| == |m.records|
      && m.records[found.value].source == datasets[found.value].source
      && w in datasets[found.value].windows
      && (found.value > 0 ==> FirstWindow(datasets[found.value].windows, w.id) == Some(w))
      && forall j :: 0 <= j < found.value ==> w.id !in Ids(datasets[j].windows)
  {
    var m := Merge(datasets);
    RecordPerDataset(datasets);
    MergedWindow(datasets, w);
    if w in datasets[0].windows {
      InIds(datasets[0].windows, w);
      RecordListsFirstWriter(datasets, 0, w.id);
      ContributorIsFirst(m.records, w.id);
    } else {
      var i :| 0 < i < |datasets| && FirstWindow(datasets[i].windows, w.id) == Some(w)
               && forall j :: 0 <= j < i ==> w.id !in Ids(datasets[j].windows);
      FirstWindowIs(datasets[i].windows, w.id);
      forall j | 0 <= j <= i
        ensures w.id in m.records[j].windowIds <==> j == i
      {
        RecordListsFirstWriter(datasets, j, w.id);
      }
      ContributorIsFirst(m.records, w.id);
      assert Contributor(m.records, w.id) == Some(i);
    }
  }

  // ----- The same for the detail -----

  lemma {:induction false} DetailOfMerge(datasets: seq<Dataset>, k: Key)
    requires datasets != []
    ensures ContainsKey(Merge(datasets).detail, k) <==> exists i :: 0 <= i < |datasets| && ContainsKey(datasets[i].detail, k)
    ensures forall i :: 0 <= i < |datasets| && FirstCarrier(datasets, i, k)
                        ==> Get(Merge(datasets).detail, k) == Get(datasets[i].detail, k)
  {
    hide ContainsKey;
    hide Get;
    if |datasets| > 1 {
      var n := |datasets| - 1;
      var rest, last := datasets[..n], datasets[n];
      DetailOfMerge(rest, k);
      var before := Merge(rest).detail;
      GetFilled(before, last.detail, k);
      ContainsIsGet(before, k);
      ContainsIsGet(last.detail, k);
      ContainsIsGet(Filled(before, last.detail), k);
      hide Filled;
      assert forall i :: 0 <= i < n ==> rest[i] == datasets[i];
    }
  }

  /** Dataset `i` is the first that carries `k`. */
  predicate FirstCarrier(datasets: seq<Dataset>, i: nat, k: Key)
    requires i < |datasets|
  {
    ContainsKey(datasets[i].detail, k) && !CarriedBefore(datasets, i, k)
  }

  predicate CarriedBefore(datasets: seq<Dataset>, i: nat, k: Key)
    requires i <= |datasets|
  {
    exists j :: 0 <= j < i && ContainsKey(datasets[j].detail, k)
  }

  lemma MergedSoFar(datasets: seq<Dataset>, i: nat, k: Key)
    requires 0 < i <= |datasets|
    ensures ContainsKey(Merge(datasets[..i]).detail, k) <==> CarriedBefore(datasets, i, k)
  {
    hide ContainsKey;
    DetailOfMerge(datasets[..i], k);
    assert forall j :: 0 <= j < i ==> datasets[..i][j] == datasets[j];
  }

  /** A record lists the keys its dataset lists and no earlier dataset carries. */
  lemma RecordListsKey(datasets: seq<Dataset>, i: nat, k: Key)
    requires i < |datasets|
    ensures |Merge(datasets).records| == |datasets|
    ensures k in Merge(datasets).records[i].metadataKeys <==>
            k in Present(datasets[i].detail) && !CarriedBefore(datasets, i, k)
  {
    hide ContainsKey;
    hide Present;
    hide Merge;
    RecordOf(datasets, i);
    if i > 0 {
      MergedSoFar(datasets, i, k);
      hide CarriedBefore;
    }
  }

  /** Without typed names in `extra`, a record lists a key exactly when its dataset is the first that
      carries it, and the merged detail holds that dataset's value. */
  lemma KeyHasFirstWriter(datasets: seq<Dataset>, i: nat, k: Key)
    requires i < |datasets|
    requires forall d :: d in datasets ==> Shadow(d.detail) == map[]
    ensures |Merge(datasets).records| == |datasets|
    ensures k in Merge(datasets).records[i].metadataKeys <==> FirstCarrier(datasets, i, k)
    ensures FirstCarrier(datasets, i, k) ==> Get(Merge(datasets).detail, k) == Get(datasets[i].detail, k)
  {
    hide ContainsKey;
    hide Get;
    hide Present;
    hide Merge;
    hide Shadow;
    RecordListsKey(datasets, i, k);
    DetailOfMerge(datasets, k);
    assert datasets[i] in datasets;
    ListedMeansPresent(datasets[i].detail, k);
  }

  lemma ListedMeansPresent(d: Detail, k: Key)
    requires Shadow(d) == map[]
    ensures k in Present(d) <==> ContainsKey(d, k)
  {
    PresentIs(d, k);
    ContainsIsGet(d, k);
    assert k in d.extra && Typed(k) ==> k in Shadow(d);
  }
}
