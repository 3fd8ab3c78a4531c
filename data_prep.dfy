/**
  Preparing the handwriting training set (`prepare_training_data`) and the dataset
  statistics (`get_dataset_stats`). A dataset holds one entry per character, in the
  order the JSON object lists them, each with its list of collected samples.
  Decoding and preprocessing a sample's image is not modelled: a sample carries the
  results of those steps, or None where they raise.
 */
module DataPrep {
  import opened Wrappers
  import opened Sorting

  /** A preprocessed grey-scale image, as its list of intensities. */
  datatype Image = Image(pixels: seq<real>)

  /** A decoded picture, known by its size. */
  datatype Picture = Picture(width: nat, height: nat)

  /**
    One collected sample: the picture its base64 image decodes to, and the
    preprocessed image for training; each is None when producing it raises.
   */
  datatype Sample = Sample(picture: Option<Picture>, prepared: Option<Image>)

  datatype Entry = Entry(character: string, samples: seq<Sample>)

  /** The dataset dictionary, in iteration order. */
  type Dataset = seq<Entry>

  /** Dictionary keys are unique. */
  predicate DistinctKeys(ds: Dataset) {
    forall i, j :: 0 <= i < j < |ds| ==> ds[i].character != ds[j].character
  }

  ghost predicate NoDuplicates(s: seq<string>) {
    forall i, j :: 0 <= i < j < |s| ==> s[i] != s[j]
  }

  function Characters(ds: Dataset): (r: seq<string>)
    ensures |r| == |ds|
    ensures forall i :: 0 <= i < |ds| ==> r[i] == ds[i].character
  {
    seq(|ds|, i requires 0 <= i < |ds| => ds[i].character)
  }

  // ---------------------------------------------------------------------------
  // The qualifying characters and their indices
  // ---------------------------------------------------------------------------

  /** `valid_chars`: the entries with at least `minSamples` samples, in dataset order. */
  function ValidChars(ds: Dataset, minSamples: int): (r: Dataset)
    ensures forall e :: e in r <==> e in ds && |e.samples| >= minSamples
    ensures DistinctKeys(ds) ==> DistinctKeys(r)
    decreases |ds|
  {
    if |ds| == 0 then []
    else
      var rest := ValidChars(ds[1..], minSamples);
      if |ds[0].samples| >= minSamples then
        HeadKeyIsNew(ds, rest);
        [ds[0]] + rest
      else rest
  }

  lemma HeadKeyIsNew(ds: Dataset, rest: Dataset)
    requires |ds| > 0 && forall e :: e in rest ==> e in ds[1..]
    ensures DistinctKeys(ds) && DistinctKeys(rest) ==> DistinctKeys([ds[0]] + rest)
  {
    if DistinctKeys(ds) && DistinctKeys(rest) {
      forall i, j | 0 <= i < j < |rest| + 1
        ensures ([ds[0]] + rest)[i].character != ([ds[0]] + rest)[j].character
      {
        var e := rest[j - 1];
        assert e in ds[1..];
        var k :| 0 <= k < |ds[1..]| && ds[1..][k] == e;
        assert ds[k + 1] == e;
      }
    }
  }

  /** `sorted(valid_chars.keys())`. */
  function SortedKeys(valid: Dataset): (r: seq<string>)
    ensures multiset(r) == multiset(Characters(valid))
    ensures SortedBy(r, StrLe)
    ensures DistinctKeys(valid) ==> NoDuplicates(r)
  {
    StrLeIsTotalPreorder();
    var r := SortBy(Characters(valid), StrLe);
    PermutationKeepsNoDuplicates(Characters(valid), r);
    r
  }

  /** `char_to_idx`: each key to its position among the sorted keys. */
  function CharToIdx(keys: seq<string>): map<string, int>
    requires NoDuplicates(keys)
  {
    map i | 0 <= i < |keys| :: keys[i] := i
  }

  /**
    `idx_to_char`, the inverse of `char_to_idx`, written directly on the sorted keys
    (`InverseMappings` shows it is that inverse).
   */
  function IdxToChar(keys: seq<string>): map<int, string> {
    map i | 0 <= i < |keys| :: keys[i]
  }

  // ---------------------------------------------------------------------------
  // The training arrays
  // ---------------------------------------------------------------------------

  /** A decoded sample together with the character it belongs to. */
  datatype Labelled = Labelled(image: Image, character: string)

  /** The decoded samples of one character, in sample order; samples that failed to decode are skipped. */
  function DecodedOf(c: string, samples: seq<Sample>): (r: seq<Labelled>)
    ensures |r| <= |samples|
    ensures forall j :: 0 <= j < |r| ==> r[j].character == c
    decreases |samples|
  {
    if |samples| == 0 then []
    else
      var front := DecodedOf(c, samples[..|samples| - 1]);
      match samples[|samples| - 1].prepared
      case Some(img) => front + [Labelled(img, c)]
      case None => front
  }

  /** The decoded samples of all entries, entry by entry. */
  function Decoded(es: Dataset): (r: seq<Labelled>)
    ensures forall j :: 0 <= j < |r| ==> r[j].character in Characters(es)
    decreases |es|
  {
    if |es| == 0 then []
    else
      var front := es[..|es| - 1];
      var last := es[|es| - 1];
      var a, b := Decoded(front), DecodedOf(last.character, last.samples);
      forall j | 0 <= j < |a| ensures a[j].character in Characters(es) {
        var k :| 0 <= k < |front| && Characters(front)[k] == a[j].character;
        assert Characters(es)[k] == a[j].character;
      }
      assert Characters(es)[|es| - 1] == last.character;
      a + b
  }

  datatype Training = Training(x: seq<Image>, y: seq<int>, charToIdx: map<string, int>, idxToChar: map<int, string>)

  datatype PrepError = NoQualifyingCharacters(minSamples: int)

  /** The arrays `X` and `y` for a list of decoded samples: each image and the index of its character. */
  function Images(ps: seq<Labelled>): seq<Image> {
    seq(|ps|, j requires 0 <= j < |ps| => ps[j].image)
  }

  function Labels(ps: seq<Labelled>, cti: map<string, int>): seq<int>
    requires forall j :: 0 <= j < |ps| ==> ps[j].character in cti
  {
    seq(|ps|, j requires 0 <= j < |ps| => cti[ps[j].character])
  }

  /** What `prepare_training_data` returns, or the error it raises. */
  function Prepared(ds: Dataset, minSamples: int): Result<Training, PrepError>
    requires DistinctKeys(ds)
  {
    var valid := ValidChars(ds, minSamples);
    if |valid| == 0 then Err(NoQualifyingCharacters(minSamples))
    else
      DecodedAreIndexed(valid);
      var keys := SortedKeys(valid);
      var ps := Decoded(valid);
      Ok(Training(Images(ps), Labels(ps, CharToIdx(keys)), CharToIdx(keys), IdxToChar(keys)))
  }

  /** `prepare_training_data`: the filter and the mappings, then the loop appending to `X` and `y`. */
  method PrepareTrainingData(ds: Dataset, minSamples: int) returns (r: Result<Training, PrepError>)
    requires DistinctKeys(ds)
    ensures r == Prepared(ds, minSamples)
  {
    var valid := ValidChars(ds, minSamples);
    if |valid| == 0 {
      return Err(NoQualifyingCharacters(minSamples));
    }
    var keys := SortedKeys(valid);
    var charToIdx := CharToIdx(keys);
    var idxToChar := IdxToChar(keys);
    ValidAreIndexed(valid);
    var x, y := CollectSamples(valid, charToIdx);
    MatchesMeans(x, y, Decoded(valid), charToIdx);
    r := Ok(Training(x, y, charToIdx, idxToChar));
  }

  /** The nested loop of `prepare_training_data`: every decoded sample's image and its character's index, in order. */
  method CollectSamples(valid: Dataset, charToIdx: map<string, int>) returns (x: seq<Image>, y: seq<int>)
    requires forall e :: e in valid ==> e.character in charToIdx
    ensures Matches(x, y, Decoded(valid), charToIdx)
  {
    x, y := [], [];
    var i := 0;
    while i < |valid|
      invariant 0 <= i <= |valid|
      invariant Matches(x, y, Decoded(valid[..i]), charToIdx)
    {
      var c, samples := valid[i].character, valid[i].samples;
      ghost var done := Decoded(valid[..i]);
      assert valid[i] in valid;
      var charIdx := charToIdx[c];
      var k := 0;
      while k < |samples|
        invariant 0 <= k <= |samples|
        invariant Matches(x, y, done + DecodedOf(c, samples[..k]), charToIdx)
      {
        MatchesStep(x, y, done, c, samples, k, charToIdx);
        match samples[k].prepared {
          case Some(img) =>
            x := x + [img];
            y := y + [charIdx];
          case None =>
        }
        k := k + 1;
      }
      assert samples[..|samples|] == samples;
      DecodedStep(valid, i);
      i := i + 1;
    }
    assert valid[..|valid|] == valid;
  }

  /** `X` and `y` hold, position by position, the image and the character index of `ps`. */
  predicate Matches(x: seq<Image>, y: seq<int>, ps: seq<Labelled>, cti: map<string, int>) {
    && |x| == |ps| && |y| == |ps|
    && forall j :: 0 <= j < |ps| ==> ps[j].character in cti && x[j] == ps[j].image && y[j] == cti[ps[j].character]
  }

  lemma MatchesAppend(x: seq<Image>, y: seq<int>, ps: seq<Labelled>, cti: map<string, int>, img: Image, c: string)
    requires Matches(x, y, ps, cti) && c in cti
    ensures Matches(x + [img], y + [cti[c]], ps + [Labelled(img, c)], cti)
  {
  }

  /** One pass of the inner loop keeps `X` and `y` in step with the decoded samples so far. */
  lemma MatchesStep(x: seq<Image>, y: seq<int>, done: seq<Labelled>, c: string, ss: seq<Sample>, k: nat, cti: map<string, int>)
    requires k < |ss| && c in cti && Matches(x, y, done + DecodedOf(c, ss[..k]), cti)
    ensures ss[k].prepared.None? ==> Matches(x, y, done + DecodedOf(c, ss[..k + 1]), cti)
    ensures ss[k].prepared.Some? ==> Matches(x + [ss[k].prepared.value], y + [cti[c]], done + DecodedOf(c, ss[..k + 1]), cti)
  {
    DecodedOfStep(c, ss, k);
    if ss[k].prepared.Some? {
      var img := ss[k].prepared.value;
      MatchesAppend(x, y, done + DecodedOf(c, ss[..k]), cti, img, c);
      assert done + DecodedOf(c, ss[..k + 1]) == done + DecodedOf(c, ss[..k]) + [Labelled(img, c)];
    } else {
      var d: seq<Labelled> := DecodedOf(c, ss[..k]);
      assert d + [] == d;
      assert DecodedOf(c, ss[..k + 1]) == d;
    }
  }

  lemma MatchesMeans(x: seq<Image>, y: seq<int>, ps: seq<Labelled>, cti: map<string, int>)
    requires Matches(x, y, ps, cti)
    ensures forall j :: 0 <= j < |ps| ==> ps[j].character in cti
    ensures x == Images(ps) && y == Labels(ps, cti)
  {
  }

  lemma DecodedStep(es: Dataset, i: nat)
    requires i < |es|
    ensures Decoded(es[..i + 1]) == Decoded(es[..i]) + DecodedOf(es[i].character, es[i].samples)
  {
    assert es[..i + 1][..i] == es[..i];
  }

  lemma DecodedOfStep(c: string, ss: seq<Sample>, k: nat)
    requires k < |ss|
    ensures DecodedOf(c, ss[..k + 1]) ==
              DecodedOf(c, ss[..k]) + match ss[k].prepared { case Some(img) => [Labelled(img, c)] case None => [] }
  {
    assert ss[..k + 1][..k] == ss[..k];
  }

  // ---------------------------------------------------------------------------
  // Helpers on duplicates and permutations
  // ---------------------------------------------------------------------------

  lemma {:induction false} NoDuplicatesCountsOnce(s: seq<string>, c: string)
    requires NoDuplicates(s)
    ensures multiset(s)[c] <= 1
    decreases |s|
  {
    if |s| > 0 {
      var front := s[..|s| - 1];
      assert s == front + [s[|s| - 1]];
      NoDuplicatesCountsOnce(front, c);
      if c == s[|s| - 1] {
        assert c !in front by {
          forall k | 0 <= k < |front| ensures front[k] != c {
            assert front[k] == s[k];
          }
        }
      }
    }
  }

  lemma RepeatCountsTwice(s: seq<string>, i: nat, j: nat)
    requires i < j < |s| && s[i] == s[j]
    ensures multiset(s)[s[i]] >= 2
  {
    assert s == s[..j] + [s[j]] + s[j + 1..];
    assert s[..j][i] == s[i];
    assert s[i] in multiset(s[..j]);
  }

  lemma PermutationKeepsNoDuplicates(s: seq<string>, t: seq<string>)
    requires multiset(s) == multiset(t)
    ensures NoDuplicates(s) ==> NoDuplicates(t)
  {
    if NoDuplicates(s) {
      PermutationKeepsNoDuplicatesStep(s, t);
    }
  }

  lemma PermutationKeepsNoDuplicatesStep(s: seq<string>, t: seq<string>)
    requires multiset(s) == multiset(t) && NoDuplicates(s)
    ensures NoDuplicates(t)
  {
    forall i, j | 0 <= i < j < |t| ensures t[i] != t[j] {
      if t[i] == t[j] {
        RepeatCountsTwice(t, i, j);
        NoDuplicatesCountsOnce(s, t[i]);
      }
    }
  }

  /** A sorted key is found at its index. */
  lemma KeyIndexed(keys: seq<string>, c: string)
    requires NoDuplicates(keys) && c in keys
    ensures c in CharToIdx(keys) && 0 <= CharToIdx(keys)[c] < |keys| && keys[CharToIdx(keys)[c]] == c
  {
    var i :| 0 <= i < |keys| && keys[i] == c;
    assert CharToIdx(keys)[keys[i]] == i;
  }

  lemma ValidAreIndexed(valid: Dataset)
    requires DistinctKeys(valid)
    ensures forall e :: e in valid ==> e.character in CharToIdx(SortedKeys(valid))
  {
    var keys := SortedKeys(valid);
    forall e | e in valid ensures e.character in CharToIdx(keys) {
      var k :| 0 <= k < |valid| && valid[k] == e;
      assert Characters(valid)[k] == e.character;
      assert e.character in multiset(keys);
      KeyIndexed(keys, e.character);
    }
  }

  lemma DecodedAreIndexed(valid: Dataset)
    requires DistinctKeys(valid)
    ensures forall j :: 0 <= j < |Decoded(valid)| ==> Decoded(valid)[j].character in CharToIdx(SortedKeys(valid))
  {
    var ps, keys := Decoded(valid), SortedKeys(valid);
    forall j | 0 <= j < |ps| ensures ps[j].character in CharToIdx(keys) {
      assert ps[j].character in multiset(keys);
      KeyIndexed(keys, ps[j].character);
    }
  }

  // ---------------------------------------------------------------------------
  // What the preparation promises
  // ---------------------------------------------------------------------------

  /** The `ValueError` is raised exactly when no character has `minSamples` samples. */
  lemma FailsIffNoneQualifies(ds: Dataset, minSamples: int)
    requires DistinctKeys(ds)
    ensures Prepared(ds, minSamples).Err? <==> forall e :: e in ds ==> |e.samples| < minSamples
  {
    var valid := ValidChars(ds, minSamples);
    if |valid| > 0 {
      assert valid[0] in valid;
    }
  }

  lemma SortedKeysLength(valid: Dataset)
    ensures |SortedKeys(valid)| == |valid|
  {
    assert |multiset(SortedKeys(valid))| == |multiset(Characters(valid))|;
  }

  /** The characters `char_to_idx` maps are exactly the qualifying ones. */
  lemma IndexedAreQualifying(ds: Dataset, minSamples: int)
    requires DistinctKeys(ds) && Prepared(ds, minSamples).Ok?
    ensures var cti := Prepared(ds, minSamples).value.charToIdx;
            forall c :: c in cti <==> exists e :: e in ds && e.character == c && |e.samples| >= minSamples
  {
    var valid := ValidChars(ds, minSamples);
    var keys := SortedKeys(valid);
    var cti := CharToIdx(keys);
    ValidAreIndexed(valid);
    forall c | c in cti ensures exists e :: e in ds && e.character == c && |e.samples| >= minSamples {
      var i :| 0 <= i < |keys| && keys[i] == c;
      assert c in multiset(Characters(valid));
      var k :| 0 <= k < |valid| && Characters(valid)[k] == c;
      assert valid[k] in valid;
    }
  }

  /** Sorted keys without duplicates: positions follow the strict string order. */
  lemma KeysInOrder(keys: seq<string>)
    requires NoDuplicates(keys) && SortedBy(keys, StrLe)
    ensures var cti := CharToIdx(keys);
            forall c1, c2 :: c1 in cti && c2 in cti ==> (cti[c1] < cti[c2] <==> StrLe(c1, c2) && c1 != c2)
  {
    var cti := CharToIdx(keys);
    forall c1, c2 | c1 in cti && c2 in cti ensures cti[c1] < cti[c2] <==> StrLe(c1, c2) && c1 != c2 {
      KeyIndexed(keys, c1);
      KeyIndexed(keys, c2);
      if cti[c2] < cti[c1] {
        assert StrLe(c2, c1);
        if StrLe(c1, c2) {
          StrLeAntisymmetric(c1, c2);
        }
      } else if cti[c1] < cti[c2] {
        assert StrLe(c1, c2);
      }
    }
  }

  /**
    `char_to_idx` numbers the qualifying characters in strict string order: distinct
    characters get distinct indices, and a smaller index means an earlier string.
   */
  lemma IndexFollowsStringOrder(ds: Dataset, minSamples: int)
    requires DistinctKeys(ds) && Prepared(ds, minSamples).Ok?
    ensures var cti := Prepared(ds, minSamples).value.charToIdx;
            && (forall c1, c2 :: c1 in cti && c2 in cti ==> (cti[c1] < cti[c2] <==> StrLe(c1, c2) && c1 != c2))
            && (forall c1, c2 :: c1 in cti && c2 in cti && c1 != c2 ==> cti[c1] != cti[c2])
  {
    var keys := SortedKeys(ValidChars(ds, minSamples));
    KeysInOrder(keys);
    StrLeIsTotalPreorder();
  }

  /**
    `char_to_idx` maps onto 0..k-1 for the k qualifying characters, `idx_to_char` is
    defined on exactly 0..k-1, and the two are each other's inverse.
   */
  lemma InverseMappings(ds: Dataset, minSamples: int)
    requires DistinctKeys(ds) && Prepared(ds, minSamples).Ok?
    ensures var t := Prepared(ds, minSamples).value;
            var k := |ValidChars(ds, minSamples)|;
            && (forall c :: c in t.charToIdx ==> 0 <= t.charToIdx[c] < k)
            && (forall i :: i in t.idxToChar <==> 0 <= i < k)
            && (forall c :: c in t.charToIdx ==> t.charToIdx[c] in t.idxToChar && t.idxToChar[t.charToIdx[c]] == c)
            && (forall i :: i in t.idxToChar ==> t.idxToChar[i] in t.charToIdx && t.charToIdx[t.idxToChar[i]] == i)
  {
    var keys := SortedKeys(ValidChars(ds, minSamples));
    SortedKeysLength(ValidChars(ds, minSamples));
    forall c | c in CharToIdx(keys) ensures CharToIdx(keys)[c] in IdxToChar(keys) && IdxToChar(keys)[CharToIdx(keys)[c]] == c {
      KeyIndexed(keys, c);
    }
    forall i | i in IdxToChar(keys) ensures IdxToChar(keys)[i] in CharToIdx(keys) && CharToIdx(keys)[IdxToChar(keys)[i]] == i {
      KeyIndexed(keys, keys[i]);
    }
  }

  /**
    `X` and `y` have one element per decoded sample of a qualifying character: the
    image, and the index of that character.
   */
  lemma LabelsMatchImages(ds: Dataset, minSamples: int)
    requires DistinctKeys(ds) && Prepared(ds, minSamples).Ok?
    ensures var t := Prepared(ds, minSamples).value;
            var ps := Decoded(ValidChars(ds, minSamples));
            && |t.x| == |t.y| == |ps|
            && forall j :: 0 <= j < |ps| ==>
                 t.x[j] == ps[j].image && ps[j].character in t.charToIdx && t.y[j] == t.charToIdx[ps[j].character]
  {
    DecodedAreIndexed(ValidChars(ds, minSamples));
  }

  /** The number of samples of the entries, and how many of them decode. */
  function SampleCount(es: Dataset): nat
    decreases |es|
  {
    if |es| == 0 then 0 else SampleCount(es[..|es| - 1]) + |es[|es| - 1].samples|
  }

  predicate AllDecode(es: Dataset) {
    forall e, s :: e in es && s in e.samples ==> s.prepared.Some?
  }

  lemma {:induction false} DecodedOfCount(c: string, samples: seq<Sample>)
    ensures |DecodedOf(c, samples)| == |samples| <==> forall s :: s in samples ==> s.prepared.Some?
    decreases |samples|
  {
    if |samples| > 0 {
      var front := samples[..|samples| - 1];
      DecodedOfCount(c, front);
      assert samples == front + [samples[|samples| - 1]];
    }
  }

  /** Failed decodes are skipped: fewer samples come out than go in, exactly as many when every sample decodes. */
  lemma {:induction false} DecodedCount(es: Dataset)
    ensures |Decoded(es)| <= SampleCount(es)
    ensures |Decoded(es)| == SampleCount(es) <==> AllDecode(es)
    decreases |es|
  {
    if |es| > 0 {
      var front, last := es[..|es| - 1], es[|es| - 1];
      DecodedCount(front);
      DecodedOfCount(last.character, last.samples);
      assert es == front + [last];
      if AllDecode(es) {
        assert AllDecode(front);
      }
      if |Decoded(es)| == SampleCount(es) {
        forall e, s | e in es && s in e.samples ensures s.prepared.Some? {
          if e != last {
            assert e in front;
          }
        }
      }
    }
  }

  // ---------------------------------------------------------------------------
  // Dataset statistics
  // ---------------------------------------------------------------------------

  datatype DatasetStats = DatasetStats(
    totalCharacters: nat, totalSamples: nat, avgSamplesPerChar: real,
    minSamples: nat, maxSamples: nat, samplesPerChar: map<string, nat>)

  function Fewest(ds: Dataset): (m: nat)
    requires |ds| > 0
    ensures forall i :: 0 <= i < |ds| ==> m <= |ds[i].samples|
    ensures exists i :: 0 <= i < |ds| && |ds[i].samples| == m
    decreases |ds|
  {
    if |ds| == 1 then |ds[0].samples|
    else
      var m := Fewest(ds[..|ds| - 1]);
      var last := |ds[|ds| - 1].samples|;
      assert forall i :: 0 <= i < |ds| - 1 ==> ds[..|ds| - 1][i] == ds[i];
      if last < m then last else m
  }

  function Most(ds: Dataset): (m: nat)
    requires |ds| > 0
    ensures forall i :: 0 <= i < |ds| ==> |ds[i].samples| <= m
    ensures exists i :: 0 <= i < |ds| && |ds[i].samples| == m
    decreases |ds|
  {
    if |ds| == 1 then |ds[0].samples|
    else
      var m := Most(ds[..|ds| - 1]);
      var last := |ds[|ds| - 1].samples|;
      assert forall i :: 0 <= i < |ds| - 1 ==> ds[..|ds| - 1][i] == ds[i];
      if last > m then last else m
  }

  /** `samples_per_char`: every character's number of samples. */
  function SamplesPerChar(ds: Dataset): (m: map<string, nat>)
    requires DistinctKeys(ds)
    ensures m.Keys == set e | e in ds :: e.character
    ensures forall i :: 0 <= i < |ds| ==> m[ds[i].character] == |ds[i].samples|
  {
    var m := map i | 0 <= i < |ds| :: ds[i].character := |ds[i].samples|;
    assert m.Keys == set e | e in ds :: e.character by {
      forall c | c in set e | e in ds :: e.character ensures c in m {
        var e :| e in ds && e.character == c;
        var i :| 0 <= i < |ds| && ds[i] == e;
        assert m[ds[i].character] == |ds[i].samples|;
      }
    }
    m
  }

  /** `get_dataset_stats`. */
  function GetDatasetStats(ds: Dataset): (r: DatasetStats)
    requires DistinctKeys(ds)
    ensures r.totalCharacters == |ds| && r.totalSamples == SampleCount(ds) && r.samplesPerChar == SamplesPerChar(ds)
    ensures |ds| == 0 ==> r.totalSamples == 0 && r.avgSamplesPerChar == 0.0 && r.minSamples == 0 && r.maxSamples == 0
    ensures |ds| > 0 ==> r.minSamples <= r.maxSamples
    ensures |ds| > 0 ==> r.avgSamplesPerChar == r.totalSamples as real / r.totalCharacters as real
    ensures forall i :: 0 <= i < |ds| ==> r.minSamples <= |ds[i].samples| <= r.maxSamples
    ensures |ds| > 0 ==> (exists i :: 0 <= i < |ds| && |ds[i].samples| == r.minSamples)
                         && (exists i :: 0 <= i < |ds| && |ds[i].samples| == r.maxSamples)
  {
    if |ds| == 0 then DatasetStats(0, SampleCount(ds), 0.0, 0, 0, SamplesPerChar(ds))
    else
      var lo, hi := Fewest(ds), Most(ds);
      assert |ds[0].samples| >= lo;
      DatasetStats(|ds|, SampleCount(ds), SampleCount(ds) as real / |ds| as real, lo, hi, SamplesPerChar(ds))
  }

  lemma {:induction false} SampleCountBounds(ds: Dataset, lo: nat, hi: nat)
    requires forall i :: 0 <= i < |ds| ==> lo <= |ds[i].samples| <= hi
    ensures |ds| * lo <= SampleCount(ds) <= |ds| * hi
    decreases |ds|
  {
    if |ds| > 0 {
      var front := ds[..|ds| - 1];
      assert forall i :: 0 <= i < |front| ==> front[i] == ds[i];
      SampleCountBounds(front, lo, hi);
    }
  }

  /** `total_samples` is the sum of the list lengths: it adds up over any split of the entries. */
  lemma {:induction false} SampleCountAdds(a: Dataset, b: Dataset)
    ensures SampleCount(a + b) == SampleCount(a) + SampleCount(b)
    decreases |b|
  {
    if |b| == 0 {
      assert a + b == a;
    } else {
      var front := b[..|b| - 1];
      SampleCountAdds(a, front);
      assert (a + b)[..|a + b| - 1] == a + front;
    }
  }

  /** On a non-empty dataset the average lies between the minimum and the maximum. */
  lemma AverageBetweenBounds(ds: Dataset)
    requires DistinctKeys(ds) && |ds| > 0
    ensures var st := GetDatasetStats(ds);
            st.minSamples as real <= st.avgSamplesPerChar <= st.maxSamples as real
  {
    var st := GetDatasetStats(ds);
    SampleCountBounds(ds, st.minSamples, st.maxSamples);
    QuotientBetween(SampleCount(ds), |ds|, st.minSamples, st.maxSamples);
  }

  lemma QuotientBetween(t: nat, n: nat, lo: nat, hi: nat)
    requires n > 0 && n * lo <= t <= n * hi
    ensures lo as real <= t as real / n as real <= hi as real
  {
    var tr, nr := t as real, n as real;
    assert nr * (lo as real) <= tr <= nr * (hi as real);
    assert tr / nr - lo as real == (tr - nr * (lo as real)) / nr;
    assert hi as real - tr / nr == (nr * (hi as real) - tr) / nr;
  }

  /** The training set never holds more images than the dataset has samples. */
  lemma TrainingWithinDataset(ds: Dataset, minSamples: int)
    requires DistinctKeys(ds) && Prepared(ds, minSamples).Ok?
    ensures |Prepared(ds, minSamples).value.x| <= GetDatasetStats(ds).totalSamples
  {
    var valid := ValidChars(ds, minSamples);
    DecodedCount(valid);
    ValidCountWithin(ds, minSamples);
  }

  lemma {:induction false} ValidCountWithin(ds: Dataset, minSamples: int)
    ensures SampleCount(ValidChars(ds, minSamples)) <= SampleCount(ds)
    decreases |ds|
  {
    if |ds| > 0 {
      ValidCountWithin(ds[1..], minSamples);
      assert ds == [ds[0]] + ds[1..];
      SampleCountAdds([ds[0]], ds[1..]);
      SampleCountAdds([ds[0]], ValidChars(ds[1..], minSamples));
      assert SampleCount([ds[0]]) == |ds[0].samples| by {
        assert [ds[0]][..0] == [];
      }
    }
  }
}
