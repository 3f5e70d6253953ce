/** Parsed input tables and the optional subsampling step of
    `convert_to_stimuli`.

    A row is the column-to-cell mapping of one CSV line together with its
    index label. Reading a CSV labels rows `0 .. len-1`; sampling keeps each
    drawn row's original label, so labels are carried explicitly. */
module Tables {
  import opened Outcomes

  /** One table row: its index label and its cells by column name. */
  datatype Row = Row(index: nat, cells: map<string, string>)

  /** `row.get(column, '')`: the cell, or the empty string when the column is
      absent. */
  function Get(row: Row, column: string): (v: string)
    ensures column in row.cells ==> v == row.cells[column]
    ensures column !in row.cells ==> v == ""
  {
    if column in row.cells then row.cells[column] else ""
  }

  /** The index labels of a table, in row order. */
  function Labels(t: seq<Row>): (ls: seq<nat>)
    ensures |ls| == |t|
    ensures forall i :: 0 <= i < |t| ==> ls[i] == t[i].index
  {
    seq(|t|, i requires 0 <= i < |t| => t[i].index)
  }

  /** The labels a freshly read table carries: row `i` is labelled `i`. */
  predicate DefaultLabels(t: seq<Row>)
  {
    forall i :: 0 <= i < |t| ==> t[i].index == i
  }

  /** No label occurs twice. */
  predicate Distinct(ls: seq<nat>)
  {
    forall i, j :: 0 <= i < j < |ls| ==> ls[i] != ls[j]
  }

  /** `if sample_n:` — both a missing value and zero mean "keep everything". */
  predicate SamplingRequested(sampleN: Option<int>)
  {
    sampleN.Some? && sampleN.value != 0
  }

  /** `min(sample_n, len(df))`, the number of rows asked of the sampler. */
  function SampleSize(requested: int, len: nat): (k: int)
    ensures k <= requested && k <= len
    ensures k == requested || k == len
  {
    if requested < len then requested else len
  }

  /** What a draw without replacement of `size` rows from a table of `len`
      rows looks like: `size` distinct positions, all in range. The
      pseudo-random generator that picks them is not modelled; a draw is
      supplied by the caller. */
  predicate IsDraw(draw: seq<nat>, len: nat, size: int)
  {
    && |draw| == size
    && (forall i :: 0 <= i < |draw| ==> draw[i] < len)
    && Distinct(draw)
  }

  /** The sampler's obligation: when sampling happens with a non-negative
      size, `draw` is a draw of that size. */
  predicate ValidDraw(t: seq<Row>, sampleN: Option<int>, draw: seq<nat>)
  {
    SamplingRequested(sampleN) && SampleSize(sampleN.value, |t|) >= 0 ==>
      IsDraw(draw, |t|, SampleSize(sampleN.value, |t|))
  }

  /** A seeded sampler: `pick(len, size)` is the draw that
      `df.sample(size, random_state=42)` makes from a table of `len` rows.
      Reseeding on every call makes the draw depend on nothing else. */
  ghost predicate IsSampler(pick: (nat, nat) -> seq<nat>)
  {
    forall len: nat, size: nat :: size <= len ==> IsDraw(pick(len, size), len, size)
  }

  /** The draw a seeded sampler makes for table `t`; `[]` when the sampler
      is not consulted. */
  function DrawOf(pick: (nat, nat) -> seq<nat>, t: seq<Row>, sampleN: Option<int>): (draw: seq<nat>)
    requires IsSampler(pick)
    ensures ValidDraw(t, sampleN, draw)
  {
    if SamplingRequested(sampleN) && SampleSize(sampleN.value, |t|) >= 0
    then pick(|t|, SampleSize(sampleN.value, |t|))
    else []
  }

  /** Lines 53-55: keep the table, or pick `min(sample_n, len)` rows at the
      drawn positions, in draw order, with their labels. A negative size is
      refused by the sampler. */
  function Sample(t: seq<Row>, sampleN: Option<int>, draw: seq<nat>): (r: Result<seq<Row>>)
    requires ValidDraw(t, sampleN, draw)
    ensures !SamplingRequested(sampleN) ==> r == Success(t)
    ensures SamplingRequested(sampleN) ==> (r.Success? <==> sampleN.value >= 0)
    ensures r.Failure? ==> r.error == NegativeSampleSize(sampleN.value)
    ensures r.Success? && SamplingRequested(sampleN) ==>
      && |r.value| == SampleSize(sampleN.value, |t|)
      && (forall i :: 0 <= i < |r.value| ==> r.value[i] == t[draw[i]])
    ensures r.Success? ==> forall i :: 0 <= i < |r.value| ==> r.value[i] in t
  {
    if !SamplingRequested(sampleN) then Success(t)
    else if SampleSize(sampleN.value, |t|) < 0 then Failure(NegativeSampleSize(sampleN.value))
    else Success(seq(|draw|, i requires 0 <= i < |draw| => t[draw[i]]))
  }

  /** Sampling a freshly read table yields rows whose labels are exactly the
      drawn positions, hence pairwise distinct and below the original
      length. */
  lemma SampledLabelsAreDraw(t: seq<Row>, sampleN: Option<int>, draw: seq<nat>)
    requires ValidDraw(t, sampleN, draw)
    requires DefaultLabels(t)
    requires SamplingRequested(sampleN) && Sample(t, sampleN, draw).Success?
    ensures Labels(Sample(t, sampleN, draw).value) == draw
    ensures Distinct(Labels(Sample(t, sampleN, draw).value))
    ensures forall i :: 0 <= i < |draw| ==> Labels(Sample(t, sampleN, draw).value)[i] < |t|
  {
  }

  /** How many times `x` occurs in `ls`. */
  function Occurrences(ls: seq<nat>, x: nat): nat
  {
    if |ls| == 0 then 0
    else Occurrences(ls[..|ls| - 1], x) + (if ls[|ls| - 1] == x then 1 else 0)
  }

  /** How many labels of `ls` are below `n`, i.e. how many of those rows are
      flagged as practice. */
  function CountBelow(ls: seq<nat>, n: int): nat
  {
    if |ls| == 0 then 0
    else CountBelow(ls[..|ls| - 1], n) + (if ls[|ls| - 1] < n then 1 else 0)
  }

  /** The number of practice rows a table with default labels gets: the
      first `n` rows, or all of them when there are fewer, or none when `n`
      is not positive. */
  function PracticeRows(n: int, len: nat): (k: nat)
    ensures k <= len
    ensures n <= 0 ==> k == 0
    ensures 0 <= n <= len ==> k == n
    ensures n >= len ==> k == len
  {
    if n <= 0 then 0 else if n < len then n else len
  }

  /** Labels `0 .. len-1` have `PracticeRows(n, len)` entries below `n`. */
  lemma {:induction false} CountBelowDefault(t: seq<Row>, n: int)
    requires DefaultLabels(t)
    ensures CountBelow(Labels(t), n) == PracticeRows(n, |t|)
    decreases |t|
  {
    if |t| > 0 {
      var p := t[..|t| - 1];
      assert Labels(t)[..|t| - 1] == Labels(p);
      CountBelowDefault(p, n);
    }
  }

  /** Raising the bound by one adds the occurrences of the old bound. */
  lemma {:induction false} CountBelowStep(ls: seq<nat>, n: nat)
    ensures CountBelow(ls, n + 1) == CountBelow(ls, n) + Occurrences(ls, n)
    decreases |ls|
  {
    if |ls| > 0 {
      CountBelowStep(ls[..|ls| - 1], n);
    }
  }

  /** A distinct sequence holds any value at most once. */
  lemma {:induction false} DistinctOccursAtMostOnce(ls: seq<nat>, x: nat)
    requires Distinct(ls)
    ensures Occurrences(ls, x) <= 1
    decreases |ls|
  {
    if |ls| > 0 {
      var p := ls[..|ls| - 1];
      DistinctOccursAtMostOnce(p, x);
      if ls[|ls| - 1] == x && Occurrences(p, x) == 1 {
        OccursImpliesIn(p, x);
      }
    }
  }

  /** A value that occurs has a position. */
  lemma {:induction false} OccursImpliesIn(ls: seq<nat>, x: nat)
    requires Occurrences(ls, x) > 0
    ensures exists j :: 0 <= j < |ls| && ls[j] == x
    decreases |ls|
  {
    if ls[|ls| - 1] != x {
      OccursImpliesIn(ls[..|ls| - 1], x);
      var j :| 0 <= j < |ls| - 1 && ls[..|ls| - 1][j] == x;
      assert ls[j] == x;
    }
  }

  /** Pigeonhole: distinct labels put at most `n` entries below `n`. */
  lemma {:induction false} DistinctCountBelowBound(ls: seq<nat>, n: nat)
    requires Distinct(ls)
    ensures CountBelow(ls, n) <= n
    decreases n
  {
    if n > 0 {
      DistinctCountBelowBound(ls, n - 1);
      CountBelowStep(ls, n - 1);
      DistinctOccursAtMostOnce(ls, n - 1);
    } else {
      CountBelowNone(ls, n);
    }
  }

  /** Nothing is below a non-positive bound. */
  lemma {:induction false} CountBelowNone(ls: seq<nat>, n: int)
    requires n <= 0
    ensures CountBelow(ls, n) == 0
    decreases |ls|
  {
    if |ls| > 0 {
      CountBelowNone(ls[..|ls| - 1], n);
    }
  }

  /** At most every entry is below the bound. */
  lemma {:induction false} CountBelowAtMostLength(ls: seq<nat>, n: int)
    ensures CountBelow(ls, n) <= |ls|
    decreases |ls|
  {
    if |ls| > 0 {
      CountBelowAtMostLength(ls[..|ls| - 1], n);
    }
  }
}
