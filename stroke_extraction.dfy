/**
  Building the stroke records of one character (`extract_stroke_paths_from_svg`):
  every path element with a non-empty `d` attribute becomes one stroke, in document
  order, with the endpoints its command groups resolve to. Stroke-number labels are
  paired with the strokes only when there are as many labels as strokes; then they
  are sorted by number and the i-th stroke takes the i-th label's number and
  position. Otherwise strokes are numbered 1..N and carry no label position.
 */
module StrokeExtraction {
  import opened Wrappers
  import opened Geometry
  import opened Sorting
  import opened PathEndpoints

  /** A path element of the character's group: its `d` attribute ("" when absent) and its command groups. */
  datatype PathElement = PathElement(d: string, commands: seq<Command>)

  /** A stroke-number label with a readable number and transform: the number and the text position. */
  datatype Label = Label(number: int, x: real, y: real)

  /** The record stored per stroke; `None` stands for Python's `None`. */
  datatype StrokeRecord = StrokeRecord(
    index: int, d: string,
    labelX: Option<real>, labelY: Option<real>,
    startX: Option<real>, startY: Option<real>, endX: Option<real>, endY: Option<real>)

  /** The path elements that become strokes: those with a non-empty `d`, in document order. */
  function Drawn(paths: seq<PathElement>): (r: seq<PathElement>)
    ensures |r| <= |paths|
    ensures forall k :: 0 <= k < |r| ==> r[k].d != ""
    decreases |paths|
  {
    if |paths| == 0 then []
    else
      var last := paths[|paths| - 1];
      Drawn(paths[..|paths| - 1]) + (if last.d != "" then [last] else [])
  }

  predicate ByNumber(a: Label, b: Label) {
    a.number <= b.number
  }

  lemma ByNumberIsTotalPreorder()
    ensures TotalPreorder(ByNumber)
  {
  }

  /** The labels in ascending order of their numbers (stable, as Python's `list.sort`). */
  function SortedLabels(labels: seq<Label>): (r: seq<Label>)
    ensures multiset(r) == multiset(labels)
    ensures forall i, j :: 0 <= i < j < |r| ==> r[i].number <= r[j].number
  {
    ByNumberIsTotalPreorder();
    SortBy(labels, ByNumber)
  }

  /** Labels are used only when there are some and exactly one per stroke. */
  predicate LabelsPair(labels: seq<Label>, strokeCount: nat) {
    |labels| > 0 && |labels| == strokeCount
  }

  function MakeRecord(index: int, d: string, tag: Option<Label>, ends: Option<Endpoints>): StrokeRecord {
    StrokeRecord(
      index, d,
      if tag.Some? then Some(tag.value.x) else None,
      if tag.Some? then Some(tag.value.y) else None,
      if ends.Some? then Some(ends.value.start.x) else None,
      if ends.Some? then Some(ends.value.start.y) else None,
      if ends.Some? then Some(ends.value.end.x) else None,
      if ends.Some? then Some(ends.value.end.y) else None)
  }

  /** The record of the i-th drawn path `ds[i]`. */
  function RecordAt(ds: seq<PathElement>, labels: seq<Label>, i: nat): StrokeRecord
    requires i < |ds|
  {
    if LabelsPair(labels, |ds|) then
      var sorted := SortedLabels(labels);
      MakeRecord(sorted[i].number, ds[i].d, Some(sorted[i]), EndpointsOf(ds[i].commands))
    else
      MakeRecord(i + 1, ds[i].d, None, EndpointsOf(ds[i].commands))
  }

  /** The stroke list the extractor returns. */
  function StrokeData(paths: seq<PathElement>, labels: seq<Label>): (r: seq<StrokeRecord>)
    ensures |r| == |Drawn(paths)|
  {
    var ds := Drawn(paths);
    seq(|ds|, i requires 0 <= i < |ds| => RecordAt(ds, labels, i))
  }

  lemma DrawnStep(paths: seq<PathElement>, i: nat)
    requires i < |paths|
    ensures Drawn(paths[..i + 1]) == Drawn(paths[..i]) + (if paths[i].d != "" then [paths[i]] else [])
  {
    assert paths[..i + 1][..i] == paths[..i];
  }

  /** The extractor's first loop: the `d` string and the endpoints of every drawn path, in order. */
  method CollectDrawn(paths: seq<PathElement>) returns (dStrings: seq<string>, startEnd: seq<Option<Endpoints>>)
    ensures |dStrings| == |startEnd| == |Drawn(paths)|
    ensures forall k :: 0 <= k < |dStrings| ==>
              dStrings[k] == Drawn(paths)[k].d && startEnd[k] == EndpointsOf(Drawn(paths)[k].commands)
  {
    dStrings, startEnd := [], [];
    var i := 0;
    while i < |paths|
      invariant 0 <= i <= |paths|
      invariant |dStrings| == |startEnd| == |Drawn(paths[..i])|
      invariant forall k :: 0 <= k < |dStrings| ==>
                  dStrings[k] == Drawn(paths[..i])[k].d && startEnd[k] == EndpointsOf(Drawn(paths[..i])[k].commands)
    {
      DrawnStep(paths, i);
      var d := paths[i].d;
      if d != "" {
        dStrings := dStrings + [d];
        var ends := ExtractEndpoints(paths[i].commands);
        startEnd := startEnd + [ends];
      }
      i := i + 1;
    }
    assert paths[..|paths|] == paths;
  }

  /** The extractor's second loop: one record per drawn path, numbered from the sorted labels when they pair up. */
  method BuildRecords(ghost ds: seq<PathElement>, dStrings: seq<string>, startEnd: seq<Option<Endpoints>>, labels: seq<Label>)
    returns (strokes: seq<StrokeRecord>)
    requires |dStrings| == |startEnd| == |ds|
    requires forall k :: 0 <= k < |ds| ==> dStrings[k] == ds[k].d && startEnd[k] == EndpointsOf(ds[k].commands)
    ensures |strokes| == |ds|
    ensures forall k :: 0 <= k < |ds| ==> strokes[k] == RecordAt(ds, labels, k)
  {
    var n := |dStrings|;
    var paired := LabelsPair(labels, n);
    var sorted := if paired then SortedLabels(labels) else labels;
    strokes := [];
    var idx := 1;
    while idx <= n
      invariant 1 <= idx <= n + 1
      invariant |strokes| == idx - 1
      invariant forall k :: 0 <= k < idx - 1 ==> strokes[k] == RecordAt(ds, labels, k)
    {
      if paired {
        var lab := sorted[idx - 1];
        strokes := strokes + [MakeRecord(lab.number, dStrings[idx - 1], Some(lab), startEnd[idx - 1])];
      } else {
        strokes := strokes + [MakeRecord(idx, dStrings[idx - 1], None, startEnd[idx - 1])];
      }
      idx := idx + 1;
    }
  }

  /** The extractor: collect `d` strings and endpoints, then build the records. */
  method ExtractStrokePaths(paths: seq<PathElement>, labels: seq<Label>) returns (strokes: seq<StrokeRecord>)
    ensures strokes == StrokeData(paths, labels)
  {
    var dStrings, startEnd := CollectDrawn(paths);
    strokes := BuildRecords(Drawn(paths), dStrings, startEnd, labels);
  }

  /** Without a full set of labels, the strokes are numbered 1..N in document order and carry no label position. */
  lemma UnpairedStrokesNumberedInOrder(paths: seq<PathElement>, labels: seq<Label>)
    requires !LabelsPair(labels, |Drawn(paths)|)
    ensures forall i :: 0 <= i < |StrokeData(paths, labels)| ==>
              StrokeData(paths, labels)[i].index == i + 1 && StrokeData(paths, labels)[i].labelX.None?
  {
  }

  function Number(l: Label): int { l.number }

  function Index(r: StrokeRecord): int { r.index }

  /** With a full set of labels, every stroke carries a label position and the numbers ascend along the strokes. */
  lemma PairedStrokesAscend(paths: seq<PathElement>, labels: seq<Label>)
    requires LabelsPair(labels, |Drawn(paths)|)
    ensures var r := StrokeData(paths, labels);
            && (forall i, j :: 0 <= i < j < |r| ==> r[i].index <= r[j].index)
            && (forall i :: 0 <= i < |r| ==> r[i].labelX.Some? && r[i].labelY.Some?)
  {
  }

  /** With a full set of labels, the stroke numbers are exactly the label numbers, rearranged. */
  lemma PairedStrokesPermuteLabels(paths: seq<PathElement>, labels: seq<Label>)
    requires LabelsPair(labels, |Drawn(paths)|)
    ensures multiset(MapSeq(Index, StrokeData(paths, labels))) == multiset(MapSeq(Number, labels))
  {
    PairedIndicesAreSortedNumbers(paths, labels);
    ByNumberIsTotalPreorder();
    SortByMapsPermutation(labels, ByNumber, Number);
  }

  lemma PairedIndicesAreSortedNumbers(paths: seq<PathElement>, labels: seq<Label>)
    requires LabelsPair(labels, |Drawn(paths)|)
    ensures MapSeq(Index, StrokeData(paths, labels)) == MapSeq(Number, SortedLabels(labels))
  {
    var r := StrokeData(paths, labels);
    var sorted := SortedLabels(labels);
    var a, b := MapSeq(Index, r), MapSeq(Number, sorted);
    assert |a| == |b|;
    forall i | 0 <= i < |a|
      ensures a[i] == b[i]
    {
      assert r[i] == RecordAt(Drawn(paths), labels, i);
    }
  }

  /** Each stroke carries its path's endpoints: all four are present exactly when the path has a moveto. */
  lemma StrokeEndpointsFromPath(paths: seq<PathElement>, labels: seq<Label>, i: nat)
    requires i < |Drawn(paths)|
    ensures var rec := StrokeData(paths, labels)[i];
            var cmds := Drawn(paths)[i].commands;
            && rec.d == Drawn(paths)[i].d
            && (rec.startX.None? <==> forall j :: 0 <= j < |cmds| ==> !IsMoveTo(cmds[j]))
            && (rec.startX.Some? ==> rec.startY.Some? && rec.endX.Some? && rec.endY.Some?
                                     && Point(rec.endX.value, rec.endY.value) == CursorAfter(cmds))
  {
    NoMoveToNoStart(Drawn(paths)[i].commands);
  }
}
