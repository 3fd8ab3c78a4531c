/**
  The dataset viewer: the grid export of one character's samples
  (`create_character_grid`) and the summary listing (`display_dataset_summary`).
  A grid has one 300x300 cell per sample, at most five cells to a row, with 10 units
  of padding around and between the cells; every sample whose image decodes is
  pasted at the top-left corner of its cell, in place, into a white image.
 */
module ViewDataset {
  import opened Wrappers
  import opened Sorting
  import opened DataPrep

  const SampleSize: nat := 300
  const Padding: nat := 10
  const MaxColumns: nat := 5

  /** The distance between the left (or top) edges of neighbouring cells. */
  const Pitch: nat := SampleSize + Padding

  datatype Layout = Layout(cols: nat, rows: nat, width: nat, height: nat)

  datatype GridError =
    | NotInDataset(character: string)   // the message is printed and None returned
    | ZeroDivision                      // a character with no samples: `cols` is 0

  /** `cols = min(5, n)`. */
  function Columns(n: nat): (c: nat)
    ensures c <= MaxColumns && c <= n
    ensures n > 0 ==> c >= 1
    ensures c == MaxColumns || c == n
  {
    if n < MaxColumns then n else MaxColumns
  }

  /** The grid dimensions and canvas size for n samples; the row count divides by the column count. */
  function GridLayout(n: nat): (r: Result<Layout, GridError>)
    ensures r.Err? <==> n == 0
    ensures r.Err? ==> r.error == ZeroDivision
  {
    var cols := Columns(n);
    if cols == 0 then Err(ZeroDivision)
    else
      var rows := (n + cols - 1) / cols;
      Ok(Layout(cols, rows, cols * Pitch + Padding, rows * Pitch + Padding))
  }

  /** The rows are the ceiling of n over the columns: enough cells for every sample, and no empty row. */
  lemma RowsAreCeiling(n: nat)
    requires n > 0
    ensures var l := GridLayout(n).value;
            && 1 <= l.cols <= MaxColumns
            && l.rows * l.cols >= n
            && (l.rows - 1) * l.cols < n
  {
    var l := GridLayout(n).value;
    var a := n + l.cols - 1;
    assert a == l.rows * l.cols + a % l.cols;
  }

  /** The cell of sample i: row `i // cols`, column `i % cols`. */
  function Cell(i: nat, cols: nat): (nat, nat)
    requires cols > 0
  {
    (i / cols, i % cols)
  }

  /** The paste position of sample i: the top-left corner of its cell. */
  function Position(i: nat, cols: nat): (int, int)
    requires cols > 0
  {
    var (row, col) := Cell(i, cols);
    (Padding + col * Pitch, Padding + row * Pitch)
  }

  /** Different samples get different cells. */
  lemma CellsDistinct(i: nat, j: nat, cols: nat)
    requires cols > 0 && i != j
    ensures Cell(i, cols) != Cell(j, cols)
  {
    assert i == (i / cols) * cols + i % cols;
    assert j == (j / cols) * cols + j % cols;
  }

  /** Every sample's cell lies within the grid's rows and columns. */
  lemma CellInGrid(n: nat, i: nat)
    requires i < n
    ensures var l := GridLayout(n).value;
            Cell(i, l.cols).0 < l.rows && Cell(i, l.cols).1 < l.cols
  {
    var l := GridLayout(n).value;
    RowsAreCeiling(n);
    var (row, col) := Cell(i, l.cols);
    assert i == row * l.cols + col;
  }

  /** Every tile, with the padding after it, fits inside the canvas. */
  lemma TileInsideCanvas(n: nat, i: nat)
    requires i < n
    ensures var l := GridLayout(n).value;
            var (x, y) := Position(i, l.cols);
            && x >= Padding && y >= Padding
            && x + SampleSize + Padding <= l.width
            && y + SampleSize + Padding <= l.height
  {
    CellInGrid(n, i);
  }

  /** Two 300x300 squares with these top-left corners share no point. */
  predicate Apart(x1: int, y1: int, x2: int, y2: int) {
    x1 + SampleSize <= x2 || x2 + SampleSize <= x1 || y1 + SampleSize <= y2 || y2 + SampleSize <= y1
  }

  /** The 300x300 tiles of two different samples do not overlap. */
  lemma TilesDisjoint(i: nat, j: nat, cols: nat)
    requires cols > 0 && i != j
    ensures var (xi, yi) := Position(i, cols);
            var (xj, yj) := Position(j, cols);
            Apart(xi, yi, xj, yj)
  {
    CellsDistinct(i, j, cols);
  }

  // ---------------------------------------------------------------------------
  // The grid image and the pasting loop
  // ---------------------------------------------------------------------------

  /** A picture pasted at (x, y), for the sample at position `index`. */
  datatype Tile = Tile(index: nat, picture: Picture, x: int, y: int)

  /** The white canvas `Image.new` creates, and the pictures pasted into it so far. */
  class GridImage {
    const width: nat
    const height: nat
    var pasted: seq<Tile>

    constructor (width: nat, height: nat)
      ensures this.width == width && this.height == height && pasted == []
    {
      this.width := width;
      this.height := height;
      pasted := [];
    }

    /** `grid.paste(img, (x, y))`. */
    method Paste(index: nat, picture: Picture, x: int, y: int)
      modifies this
      ensures pasted == old(pasted) + [Tile(index, picture, x, y)]
    {
      pasted := pasted + [Tile(index, picture, x, y)];
    }
  }

  /** The tiles pasted for the first k samples: one per sample that decodes, at its cell. */
  function Tiles(samples: seq<Sample>, cols: nat, k: nat): (r: seq<Tile>)
    requires cols > 0 && k <= |samples|
    ensures |r| <= k
    ensures forall t :: t in r ==>
              t.index < k && (t.x, t.y) == Position(t.index, cols) && samples[t.index].picture == Some(t.picture)
    decreases k
  {
    if k == 0 then []
    else
      var front := Tiles(samples, cols, k - 1);
      match samples[k - 1].picture
      case Some(p) =>
        var (x, y) := Position(k - 1, cols);
        front + [Tile(k - 1, p, x, y)]
      case None => front
  }

  /** The sample list stored under `c`, if the dataset has it. */
  function Lookup(ds: Dataset, c: string): (r: Option<seq<Sample>>)
    ensures r.None? <==> forall e :: e in ds ==> e.character != c
    ensures r.Some? ==> Entry(c, r.value) in ds
    decreases |ds|
  {
    if |ds| == 0 then None
    else if ds[0].character == c then Some(ds[0].samples)
    else Lookup(ds[1..], c)
  }

  /** The file the grid is saved to: the given name, or `grid_<character>.png`. */
  function GridFileName(character: string, outputFile: Option<string>): string {
    match outputFile
    case Some(name) => name
    case None => "grid_" + character + ".png"
  }

  /** `create_character_grid` without the saving and opening of the file. */
  method CreateCharacterGrid(ds: Dataset, character: string, outputFile: Option<string>)
    returns (r: Result<string, GridError>, grid: GridImage?)
    ensures Lookup(ds, character).None? ==> r == Err(NotInDataset(character)) && grid == null
    ensures Lookup(ds, character).Some? && |Lookup(ds, character).value| == 0 ==> r == Err(ZeroDivision) && grid == null
    ensures Lookup(ds, character).Some? && |Lookup(ds, character).value| > 0 ==>
              var samples := Lookup(ds, character).value;
              var l := GridLayout(|samples|).value;
              && r == Ok(GridFileName(character, outputFile))
              && grid != null && fresh(grid)
              && grid.width == l.width && grid.height == l.height
              && grid.pasted == Tiles(samples, l.cols, |samples|)
  {
    var found := Lookup(ds, character);
    if found.None? {
      return Err(NotInDataset(character)), null;
    }
    var samples := found.value;
    var layout := GridLayout(|samples|);
    if layout.Err? {
      return Err(ZeroDivision), null;
    }
    var cols := layout.value.cols;
    grid := new GridImage(layout.value.width, layout.value.height);
    var i := 0;
    while i < |samples|
      invariant 0 <= i <= |samples|
      invariant grid.pasted == Tiles(samples, cols, i)
    {
      match samples[i].picture {
        case Some(img) =>
          var row, col := i / cols, i % cols;
          var x, y := Padding + col * Pitch, Padding + row * Pitch;
          grid.Paste(i, img, x, y);
        case None =>
      }
      i := i + 1;
    }
    r := Ok(GridFileName(character, outputFile));
  }

  /** The pasted tiles are in sample order, so no sample is pasted twice. */
  lemma {:induction false} TilesInSampleOrder(samples: seq<Sample>, cols: nat, k: nat)
    requires cols > 0 && k <= |samples|
    ensures forall a, b :: 0 <= a < b < |Tiles(samples, cols, k)| ==> Tiles(samples, cols, k)[a].index < Tiles(samples, cols, k)[b].index
    decreases k
  {
    if k > 0 {
      TilesInSampleOrder(samples, cols, k - 1);
      var front := Tiles(samples, cols, k - 1);
      if samples[k - 1].picture.Some? {
        var (x, y) := Position(k - 1, cols);
        var t := Tile(k - 1, samples[k - 1].picture.value, x, y);
        assert Tiles(samples, cols, k) == front + [t];
        forall a | 0 <= a < |front| ensures front[a].index < k - 1 {
          assert front[a] in front;
        }
      }
    }
  }

  /** Every sample whose image decodes is pasted, and a failed decode leaves only its cell empty. */
  lemma {:induction false} EveryDecodedSamplePasted(samples: seq<Sample>, cols: nat, k: nat, i: nat)
    requires cols > 0 && i < k <= |samples|
    ensures (exists t :: t in Tiles(samples, cols, k) && t.index == i) <==> samples[i].picture.Some?
    decreases k
  {
    var ts := Tiles(samples, cols, k);
    if i < k - 1 {
      EveryDecodedSamplePasted(samples, cols, k - 1, i);
      var front := Tiles(samples, cols, k - 1);
      assert forall t :: t in ts ==> t in front || t.index == k - 1;
      assert forall t :: t in front ==> t in ts;
    } else {
      assert forall t :: t in Tiles(samples, cols, k - 1) ==> t.index < k - 1;
      if samples[i].picture.Some? {
        assert ts[|ts| - 1].index == i;
      }
    }
  }

  /** Every tile of a grid of n samples lies inside its canvas, padding included. */
  lemma GridTilesInside(samples: seq<Sample>)
    requires |samples| > 0
    ensures var l := GridLayout(|samples|).value;
            forall t :: t in Tiles(samples, l.cols, |samples|) ==>
              Padding <= t.x && t.x + SampleSize + Padding <= l.width && Padding <= t.y && t.y + SampleSize + Padding <= l.height
  {
    var l := GridLayout(|samples|).value;
    forall t | t in Tiles(samples, l.cols, |samples|)
      ensures Padding <= t.x && t.x + SampleSize + Padding <= l.width && Padding <= t.y && t.y + SampleSize + Padding <= l.height
    {
      TileInsideCanvas(|samples|, t.index);
    }
  }

  /** No two tiles of a grid overlap. */
  lemma GridTilesApart(samples: seq<Sample>, cols: nat)
    requires cols > 0
    ensures forall a, b :: 0 <= a < b < |Tiles(samples, cols, |samples|)| ==>
              var (s, t) := (Tiles(samples, cols, |samples|)[a], Tiles(samples, cols, |samples|)[b]);
              Apart(s.x, s.y, t.x, t.y)
  {
    var ts := Tiles(samples, cols, |samples|);
    TilesInSampleOrder(samples, cols, |samples|);
    forall a, b | 0 <= a < b < |ts| ensures Apart(ts[a].x, ts[a].y, ts[b].x, ts[b].y) {
      assert ts[a] in ts && ts[b] in ts;
      TilesDisjoint(ts[a].index, ts[b].index, cols);
    }
  }

  // ---------------------------------------------------------------------------
  // The summary listing
  // ---------------------------------------------------------------------------

  /** The sort key with `reverse=True`: more samples first. */
  predicate MoreSamples(a: Entry, b: Entry) {
    |a.samples| >= |b.samples|
  }

  lemma MoreSamplesIsTotalPreorder()
    ensures TotalPreorder(MoreSamples)
  {
  }

  /** What `display_dataset_summary` prints: the totals, the average (a bare 0 for an empty dataset) and the listing. */
  datatype Summary = Summary(totalCharacters: nat, totalSamples: nat, average: Option<real>, listing: seq<Entry>)

  function DisplaySummary(ds: Dataset): (r: Summary)
    ensures multiset(r.listing) == multiset(ds)
    ensures forall i, j :: 0 <= i < j < |r.listing| ==> |r.listing[i].samples| >= |r.listing[j].samples|
    ensures r.average.None? <==> |ds| == 0
  {
    MoreSamplesIsTotalPreorder();
    var listing := SortBy(ds, MoreSamples);
    Summary(|ds|, SampleCount(ds),
            if |ds| > 0 then Some(SampleCount(ds) as real / |ds| as real) else None,
            listing)
  }

  /** The summary's totals and average are those of `get_dataset_stats`. */
  lemma SummaryAgreesWithStats(ds: Dataset)
    requires DistinctKeys(ds)
    ensures var s, st := DisplaySummary(ds), GetDatasetStats(ds);
            && s.totalCharacters == st.totalCharacters
            && s.totalSamples == st.totalSamples
            && (|ds| > 0 ==> s.average == Some(st.avgSamplesPerChar))
  {
  }

  /** The listing has every entry once; its first entry has the most samples and its last the fewest. */
  lemma ListingExtremes(ds: Dataset)
    requires |ds| > 0
    ensures var l := DisplaySummary(ds).listing;
            && |l| == |ds| && l[0] in ds && l[|l| - 1] in ds
            && forall e :: e in ds ==> |l[|l| - 1].samples| <= |e.samples| <= |l[0].samples|
  {
    var l := DisplaySummary(ds).listing;
    assert |multiset(l)| == |multiset(ds)|;
    assert l[0] in multiset(ds) && l[|l| - 1] in multiset(ds);
    forall e | e in ds ensures |l[|l| - 1].samples| <= |e.samples| <= |l[0].samples| {
      assert e in multiset(l);
      var a :| 0 <= a < |l| && l[a] == e;
    }
  }
}
