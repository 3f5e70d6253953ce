/** Per-row normalisation: the two `iterrows` loops of `convert_to_stimuli`
    turn each table row into a fixed-shape stimulus record. */
module Stimuli {
  import opened Outcomes
  import opened Paths
  import opened Tables

  const ImagePathColumn: string := "image_path"
  const RaceColumn: string := "top_race_4"
  const GenderColumn: string := "top_gender"
  const AgeColumn: string := "top_age"

  /** Which input table a row came from. */
  datatype Group = Western | Chinese
  {
    /** The group's label, used both as `source` and as image folder. */
    function Label(): (s: string)
      ensures Separator !in s
    {
      match this
      case Western => "western"
      case Chinese => "chinese"
    }
  }

  /** The two groups are told apart by their labels. */
  lemma LabelsDiffer()
    ensures Western.Label() != Chinese.Label()
  {
    assert Western.Label()[0] != Chinese.Label()[0];
  }

  /** One entry of the manifest's `stimuli` list. Every field is always
      present; missing metadata is the empty string. */
  datatype Stimulus = Stimulus(
    image: string,
    source: string,
    imageId: string,
    isPractice: bool,
    originalPath: string,
    race: string,
    gender: string,
    age: string)

  /** The derivation of one record from one row (lines 62-74 and 79-91):
      the path verbatim, its file name as id, the image URL under the
      group's folder, the practice flag from the row's index label, and the
      metadata cells defaulting to the empty string. */
  predicate RecordOf(s: Stimulus, row: Row, group: Group, imageBaseUrl: string, nPractice: int)
  {
    && ImagePathColumn in row.cells
    && s.originalPath == row.cells[ImagePathColumn]
    && s.imageId == ExtractFilename(s.originalPath)
    && s.source == group.Label()
    && s.image == imageBaseUrl + s.source + [Separator] + s.imageId
    && (s.isPractice <==> row.index < nPractice)
    && s.race == Get(row, RaceColumn)
    && s.gender == Get(row, GenderColumn)
    && s.age == Get(row, AgeColumn)
  }

  /** Lines 61-75 (and 78-92 for the second group): the record built from
      one row. A row without `image_path` stops the conversion. */
  function NormalizeRow(row: Row, group: Group, imageBaseUrl: string, nPractice: int): (r: Result<Stimulus>)
    ensures r.Success? <==> ImagePathColumn in row.cells
    ensures r.Failure? ==> r.error == MissingColumn(ImagePathColumn)
    ensures r.Success? ==> RecordOf(r.value, row, group, imageBaseUrl, nPractice)
  {
    if ImagePathColumn !in row.cells then Failure(MissingColumn(ImagePathColumn))
    else
      var path := row.cells[ImagePathColumn];
      var filename := ExtractFilename(path);
      Success(Stimulus(
        image := imageBaseUrl + group.Label() + [Separator] + filename,
        source := group.Label(),
        imageId := filename,
        isPractice := row.index < nPractice,
        originalPath := path,
        race := Get(row, RaceColumn),
        gender := Get(row, GenderColumn),
        age := Get(row, AgeColumn)))
  }

  /** A row determines its record: `RecordOf` has exactly one solution, the
      one `NormalizeRow` returns. */
  lemma RecordOfUnique(s: Stimulus, row: Row, group: Group, imageBaseUrl: string, nPractice: int)
    requires RecordOf(s, row, group, imageBaseUrl, nPractice)
    ensures NormalizeRow(row, group, imageBaseUrl, nPractice) == Success(s)
  {
  }

  /** `ss` are the records of the rows `t`, one for one and in order. */
  predicate Normalized(ss: seq<Stimulus>, t: seq<Row>, group: Group, imageBaseUrl: string, nPractice: int)
  {
    && |ss| == |t|
    && forall i {:trigger RecordOf(ss[i], t[i], group, imageBaseUrl, nPractice)} ::
         0 <= i < |t| ==> RecordOf(ss[i], t[i], group, imageBaseUrl, nPractice)
  }

  /** The records of a table are determined by its rows. */
  lemma NormalizedUnique(a: seq<Stimulus>, b: seq<Stimulus>, t: seq<Row>, group: Group, imageBaseUrl: string, nPractice: int)
    requires Normalized(a, t, group, imageBaseUrl, nPractice)
    requires Normalized(b, t, group, imageBaseUrl, nPractice)
    ensures a == b
  {
    forall i | 0 <= i < |a|
      ensures a[i] == b[i]
    {
      RecordOfUnique(a[i], t[i], group, imageBaseUrl, nPractice);
      RecordOfUnique(b[i], t[i], group, imageBaseUrl, nPractice);
    }
  }

  /** One `for idx, row in df.iterrows()` loop: the records of a table in row
      order, or the error of the first row without `image_path`. */
  function NormalizeTable(t: seq<Row>, group: Group, imageBaseUrl: string, nPractice: int): (r: Result<seq<Stimulus>>)
    ensures r.Success? <==> forall i :: 0 <= i < |t| ==> ImagePathColumn in t[i].cells
    ensures r.Failure? ==> r.error == MissingColumn(ImagePathColumn)
    ensures r.Success? ==> Normalized(r.value, t, group, imageBaseUrl, nPractice)
    decreases |t|
  {
    if |t| == 0 then Success([])
    else
      var s :- NormalizeRow(t[0], group, imageBaseUrl, nPractice);
      var rest :- NormalizeTable(t[1..], group, imageBaseUrl, nPractice);
      NormalizedCons(s, rest, t, group, imageBaseUrl, nPractice);
      Success([s] + rest)
  }

  /** Prepending the first row's record to the records of the other rows
      gives the records of the whole table. */
  lemma NormalizedCons(s: Stimulus, rest: seq<Stimulus>, t: seq<Row>, group: Group, imageBaseUrl: string, nPractice: int)
    requires |t| > 0
    requires RecordOf(s, t[0], group, imageBaseUrl, nPractice)
    requires Normalized(rest, t[1..], group, imageBaseUrl, nPractice)
    ensures Normalized([s] + rest, t, group, imageBaseUrl, nPractice)
  {
    forall i | 0 <= i < |t|
      ensures RecordOf(([s] + rest)[i], t[i], group, imageBaseUrl, nPractice)
    {
      if i > 0 {
        assert RecordOf(rest[i - 1], t[1..][i - 1], group, imageBaseUrl, nPractice);
      }
    }
  }

  /** The basename of a record's image URL is its image id: the image URL
      and the source path name the same file. */
  lemma ImageNamesSameFile(row: Row, group: Group, imageBaseUrl: string, nPractice: int)
    requires NormalizeRow(row, group, imageBaseUrl, nPractice).Success?
    ensures var s := NormalizeRow(row, group, imageBaseUrl, nPractice).value;
      && ExtractFilename(s.image) == s.imageId
      && ExtractFilename(s.originalPath) == s.imageId
  {
    var s := NormalizeRow(row, group, imageBaseUrl, nPractice).value;
    assert RecordOf(s, row, group, imageBaseUrl, nPractice);
    assert imageBaseUrl + s.source + [Separator] + s.imageId
        == (imageBaseUrl + s.source) + [Separator] + s.imageId;
    JoinThenExtract(imageBaseUrl + s.source, s.imageId);
    LastComponentUnique(s.imageId, s.originalPath);
  }

  /** Record `i` is practice exactly when label `i` is below `n`. */
  predicate PracticeByLabels(ss: seq<Stimulus>, labels: seq<nat>, nPractice: int)
  {
    && |ss| == |labels|
    && forall i :: 0 <= i < |ss| ==> (ss[i].isPractice <==> labels[i] < nPractice)
  }

  /** The number of records flagged as practice. */
  function PracticeCount(ss: seq<Stimulus>): nat
  {
    if |ss| == 0 then 0
    else PracticeCount(ss[..|ss| - 1]) + (if ss[|ss| - 1].isPractice then 1 else 0)
  }

  /** Records none of which is flagged count zero practice records. */
  lemma {:induction false} NoFlagsCountZero(ss: seq<Stimulus>)
    requires forall i :: 0 <= i < |ss| ==> !ss[i].isPractice
    ensures PracticeCount(ss) == 0
    decreases |ss|
  {
    if |ss| > 0 {
      NoFlagsCountZero(ss[..|ss| - 1]);
    }
  }

  /** Practice counts add up over concatenation. */
  lemma {:induction false} PracticeCountAppend(a: seq<Stimulus>, b: seq<Stimulus>)
    ensures PracticeCount(a + b) == PracticeCount(a) + PracticeCount(b)
    decreases |b|
  {
    if |b| > 0 {
      assert (a + b)[..|a + b| - 1] == a + b[..|b| - 1];
      PracticeCountAppend(a, b[..|b| - 1]);
    } else {
      assert a + b == a;
    }
  }

  /** Each normalised record carries its group's label and is practice
      exactly when its row's label is below the practice count, whatever
      order the rows come in. */
  lemma NormalizedFields(ss: seq<Stimulus>, t: seq<Row>, group: Group, imageBaseUrl: string, nPractice: int)
    requires Normalized(ss, t, group, imageBaseUrl, nPractice)
    ensures forall i :: 0 <= i < |ss| ==>
      && ss[i].source == group.Label()
      && (ss[i].isPractice <==> t[i].index < nPractice)
      && ImagePathColumn in t[i].cells
      && ss[i].originalPath == t[i].cells[ImagePathColumn]
  {
    forall i | 0 <= i < |ss|
      ensures ss[i].source == group.Label()
      ensures ss[i].isPractice <==> t[i].index < nPractice
      ensures ImagePathColumn in t[i].cells
      ensures ss[i].originalPath == t[i].cells[ImagePathColumn]
    {
      assert RecordOf(ss[i], t[i], group, imageBaseUrl, nPractice);
    }
  }

  /** The practice records of a table are counted by its labels. */
  lemma PracticeCountIsCountBelow(ss: seq<Stimulus>, t: seq<Row>, group: Group, imageBaseUrl: string, nPractice: int)
    requires Normalized(ss, t, group, imageBaseUrl, nPractice)
    ensures PracticeCount(ss) == CountBelow(Labels(t), nPractice)
  {
    NormalizedFields(ss, t, group, imageBaseUrl, nPractice);
    FlagsCountedByLabels(ss, t, nPractice);
  }

  /** Counting flags that mirror "label below `n`" counts those labels. */
  lemma {:induction false} FlagsCountedByLabels(ss: seq<Stimulus>, t: seq<Row>, nPractice: int)
    requires |ss| == |t|
    requires forall i :: 0 <= i < |ss| ==> (ss[i].isPractice <==> t[i].index < nPractice)
    ensures PracticeCount(ss) == CountBelow(Labels(t), nPractice)
    decreases |t|
  {
    if |t| > 0 {
      var p := t[..|t| - 1];
      assert Labels(t)[..|t| - 1] == Labels(p);
      FlagsCountedByLabels(ss[..|ss| - 1], p, nPractice);
    }
  }

  /** Without sampling (labels `0 .. len-1`), the practice records are
      exactly the first `min(n, len)` ones. */
  lemma FirstRowsArePractice(ss: seq<Stimulus>, t: seq<Row>, group: Group, imageBaseUrl: string, nPractice: int)
    requires DefaultLabels(t)
    requires Normalized(ss, t, group, imageBaseUrl, nPractice)
    ensures forall i :: 0 <= i < |ss| ==> (ss[i].isPractice <==> i < nPractice)
    ensures PracticeCount(ss) == PracticeRows(nPractice, |t|)
  {
    NormalizedFields(ss, t, group, imageBaseUrl, nPractice);
    PracticeCountIsCountBelow(ss, t, group, imageBaseUrl, nPractice);
    CountBelowDefault(t, nPractice);
  }

  /** With distinct labels (a sample of a freshly read table), at most `n`
      records are practice, and possibly fewer: it is the rows whose
      original position was below `n`, not the first `n` drawn. */
  lemma DistinctLabelsBoundPractice(ss: seq<Stimulus>, t: seq<Row>, group: Group, imageBaseUrl: string, nPractice: int)
    requires Distinct(Labels(t))
    requires Normalized(ss, t, group, imageBaseUrl, nPractice)
    ensures PracticeCount(ss) <= PracticeRows(nPractice, |t|)
  {
    PracticeCountIsCountBelow(ss, t, group, imageBaseUrl, nPractice);
    CountBelowAtMostLength(Labels(t), nPractice);
    if nPractice <= 0 {
      CountBelowNone(Labels(t), nPractice);
    } else {
      DistinctCountBelowBound(Labels(t), nPractice);
    }
  }

  /** The records of a sample of a freshly read table: practice exactly
      where the drawn position is below `n`, and at most `min(n, len)` of
      them. */
  lemma SampledGroupPractice(ss: seq<Stimulus>, t: seq<Row>, sampleN: Option<int>, draw: seq<nat>,
                             group: Group, imageBaseUrl: string, nPractice: int)
    requires ValidDraw(t, sampleN, draw)
    requires DefaultLabels(t)
    requires SamplingRequested(sampleN) && Sample(t, sampleN, draw).Success?
    requires Normalized(ss, Sample(t, sampleN, draw).value, group, imageBaseUrl, nPractice)
    ensures PracticeByLabels(ss, draw, nPractice)
    ensures PracticeCount(ss) <= PracticeRows(nPractice, |ss|)
  {
    var ws := Sample(t, sampleN, draw).value;
    SampledLabelsAreDraw(t, sampleN, draw);
    NormalizedFields(ss, ws, group, imageBaseUrl, nPractice);
    DistinctLabelsBoundPractice(ss, ws, group, imageBaseUrl, nPractice);
  }
}
