/** The whole transform of `convert_to_stimuli` (lines 46-104 of
    convert_stimuli.py) once the two CSV files are parsed: optional sampling,
    the two normalisation loops, concatenation and the summary block. */
module Manifests {
  import opened Outcomes
  import opened Paths
  import opened Tables
  import opened Stimuli

  /** The caller's options: `image_base_url`, `n_practice_per_group` and
      `sample_n` (absent when not given). */
  datatype Options = Options(imageBaseUrl: string, nPractice: int, sampleN: Option<int>)

  /** The keyword defaults of `convert_to_stimuli` (lines 25-26): base
      `"images/"`, three practice rows per group, no sampling. */
  const DefaultOptions: Options := Options("images/", 3, None)

  /** The `experiment_info` block. */
  datatype Summary = Summary(
    totalStimuli: int,
    practiceTrials: int,
    mainTrials: int,
    westernCount: int,
    chineseCount: int)

  /** The output document: summary plus the ordered stimulus list. */
  datatype Manifest = Manifest(info: Summary, stimuli: seq<Stimulus>)

  /** Lines 95-102: the summary over the final (possibly sampled) tables.
      `practice_trials` is twice the per-group practice count whatever the
      table sizes, and `main_trials` is not clamped. */
  function Summarize(stimuli: seq<Stimulus>, westernCount: nat, chineseCount: nat, nPractice: int): Summary
  {
    Summary(
      totalStimuli := |stimuli|,
      practiceTrials := nPractice * 2,
      mainTrials := |stimuli| - nPractice * 2,
      westernCount := westernCount,
      chineseCount := chineseCount)
  }

  /** Lines 58-104: the two normalisation loops over the final tables, the
      concatenation and the summary. */
  function Assemble(ws: seq<Row>, cs: seq<Row>, opts: Options): (r: Result<Manifest>)
    ensures r.Success? <==>
      && (forall i :: 0 <= i < |ws| ==> ImagePathColumn in ws[i].cells)
      && (forall i :: 0 <= i < |cs| ==> ImagePathColumn in cs[i].cells)
    ensures r.Failure? ==> r.error == MissingColumn(ImagePathColumn)
    ensures r.Success? ==>
      var m := r.value;
      && |m.stimuli| == m.info.totalStimuli == m.info.westernCount + m.info.chineseCount
      && m.info.westernCount == |ws| && m.info.chineseCount == |cs|
      && m.info.practiceTrials == 2 * opts.nPractice
      && m.info.mainTrials == m.info.totalStimuli - m.info.practiceTrials
      && Normalized(m.stimuli[..|ws|], ws, Western, opts.imageBaseUrl, opts.nPractice)
      && Normalized(m.stimuli[|ws|..], cs, Chinese, opts.imageBaseUrl, opts.nPractice)
  {
    var wr :- NormalizeTable(ws, Western, opts.imageBaseUrl, opts.nPractice);
    var cr :- NormalizeTable(cs, Chinese, opts.imageBaseUrl, opts.nPractice);
    var stimuli := wr + cr;
    ConcatSlices(wr, cr);
    Success(Manifest(Summarize(stimuli, |ws|, |cs|, opts.nPractice), stimuli))
  }

  /** The two halves of a concatenation are its slices. */
  lemma ConcatSlices<T>(a: seq<T>, b: seq<T>)
    ensures (a + b)[..|a|] == a && (a + b)[|a|..] == b
  {
  }

  /** Lines 46-104 without the file reading and writing. `westernDraw` and
      `chineseDraw` stand for the positions the seeded sampler picks; they
      are only consulted when sampling is requested. Both tables are sampled
      before any row is normalised. */
  function Convert(western: seq<Row>, chinese: seq<Row>, opts: Options,
                   westernDraw: seq<nat>, chineseDraw: seq<nat>): (r: Result<Manifest>)
    requires ValidDraw(western, opts.sampleN, westernDraw)
    requires ValidDraw(chinese, opts.sampleN, chineseDraw)
    ensures SamplingRequested(opts.sampleN) && opts.sampleN.value < 0 ==>
      r == Failure(NegativeSampleSize(opts.sampleN.value))
    ensures !(SamplingRequested(opts.sampleN) && opts.sampleN.value < 0) ==>
      && Sample(western, opts.sampleN, westernDraw).Success?
      && Sample(chinese, opts.sampleN, chineseDraw).Success?
      && r == Assemble(Sample(western, opts.sampleN, westernDraw).value,
                       Sample(chinese, opts.sampleN, chineseDraw).value, opts)
    ensures !SamplingRequested(opts.sampleN) ==> r == Assemble(western, chinese, opts)
  {
    var ws :- Sample(western, opts.sampleN, westernDraw);
    // The western table accepted this size, so the chinese table does too.
    var cs := Sample(chinese, opts.sampleN, chineseDraw).value;
    Assemble(ws, cs, opts)
  }

  /** Lines 46-104 with the seeded sampler: lines 54 and 55 pass the same
      `random_state`, so one `pick` draws for each group from its own
      length, and two tables of the same length are sampled at the same
      positions. */
  function ConvertSeeded(western: seq<Row>, chinese: seq<Row>, opts: Options,
                         pick: (nat, nat) -> seq<nat>): (r: Result<Manifest>)
    requires IsSampler(pick)
    ensures !SamplingRequested(opts.sampleN) ==> r == Assemble(western, chinese, opts)
    ensures SamplingRequested(opts.sampleN) && opts.sampleN.value < 0 ==>
      r == Failure(NegativeSampleSize(opts.sampleN.value))
    ensures SamplingRequested(opts.sampleN) && opts.sampleN.value >= 0 ==>
      var dw := pick(|western|, SampleSize(opts.sampleN.value, |western|));
      var dc := pick(|chinese|, SampleSize(opts.sampleN.value, |chinese|));
      && ValidDraw(western, opts.sampleN, dw) && ValidDraw(chinese, opts.sampleN, dc)
      && r == Assemble(Sample(western, opts.sampleN, dw).value, Sample(chinese, opts.sampleN, dc).value, opts)
    ensures SamplingRequested(opts.sampleN) && opts.sampleN.value >= 0 && |western| == |chinese| ==>
      var d := pick(|western|, SampleSize(opts.sampleN.value, |western|));
      && IsDraw(d, |western|, SampleSize(opts.sampleN.value, |western|))
      && r == Assemble(Sample(western, opts.sampleN, d).value, Sample(chinese, opts.sampleN, d).value, opts)
  {
    Convert(western, chinese, opts, DrawOf(pick, western, opts.sampleN), DrawOf(pick, chinese, opts.sampleN))
  }

  /** The stimulus list is every western record followed by every chinese
      record: the `source` of position `i` is western exactly for the first
      `western_count` positions. */
  lemma GroupsInTableOrder(ws: seq<Row>, cs: seq<Row>, opts: Options)
    requires Assemble(ws, cs, opts).Success?
    ensures var m := Assemble(ws, cs, opts).value;
      forall i :: 0 <= i < |m.stimuli| ==>
        && (m.stimuli[i].source == Western.Label() <==> i < m.info.westernCount)
        && (m.stimuli[i].source == Chinese.Label() <==> m.info.westernCount <= i)
  {
    var m := Assemble(ws, cs, opts).value;
    NormalizedFields(m.stimuli[..|ws|], ws, Western, opts.imageBaseUrl, opts.nPractice);
    NormalizedFields(m.stimuli[|ws|..], cs, Chinese, opts.imageBaseUrl, opts.nPractice);
    BlocksBySource(m.stimuli, |ws|);
  }

  /** A list made of a western block of length `k` followed by a chinese
      block has western sources exactly before `k`. */
  lemma BlocksBySource(ss: seq<Stimulus>, k: nat)
    requires k <= |ss|
    requires forall i :: 0 <= i < k ==> ss[..k][i].source == Western.Label()
    requires forall i :: 0 <= i < |ss| - k ==> ss[k..][i].source == Chinese.Label()
    ensures forall i :: 0 <= i < |ss| ==>
      && (ss[i].source == Western.Label() <==> i < k)
      && (ss[i].source == Chinese.Label() <==> k <= i)
  {
    LabelsDiffer();
    forall i | 0 <= i < |ss|
      ensures ss[i].source == (if i < k then Western.Label() else Chinese.Label())
    {
      if i < k {
        assert ss[i] == ss[..k][i];
      } else {
        assert ss[i] == ss[k..][i - k];
      }
    }
  }

  /** A successful assembly's practice records are counted by the labels of
      the two tables, group by group. */
  lemma AssemblePracticeCount(ws: seq<Row>, cs: seq<Row>, opts: Options)
    requires Assemble(ws, cs, opts).Success?
    ensures PracticeCount(Assemble(ws, cs, opts).value.stimuli) ==
      CountBelow(Labels(ws), opts.nPractice) + CountBelow(Labels(cs), opts.nPractice)
  {
    var ss := Assemble(ws, cs, opts).value.stimuli;
    var a, b := ss[..|ws|], ss[|ws|..];
    assert ss == a + b;
    PracticeCountAppend(a, b);
    PracticeCountIsCountBelow(a, ws, Western, opts.imageBaseUrl, opts.nPractice);
    PracticeCountIsCountBelow(b, cs, Chinese, opts.imageBaseUrl, opts.nPractice);
  }

  /** Without sampling, the first `min(n, len)` records of each group's
      block are the practice ones, and nothing else is. */
  lemma PracticeWithoutSampling(western: seq<Row>, chinese: seq<Row>, opts: Options,
                                westernDraw: seq<nat>, chineseDraw: seq<nat>)
    requires !SamplingRequested(opts.sampleN)
    requires DefaultLabels(western) && DefaultLabels(chinese)
    requires Convert(western, chinese, opts, westernDraw, chineseDraw).Success?
    ensures var m := Convert(western, chinese, opts, westernDraw, chineseDraw).value;
      && (forall i :: 0 <= i < |western| ==>
            (m.stimuli[..|western|][i].isPractice <==> i < opts.nPractice))
      && (forall j :: 0 <= j < |chinese| ==>
            (m.stimuli[|western|..][j].isPractice <==> j < opts.nPractice))
      && PracticeCount(m.stimuli) ==
           PracticeRows(opts.nPractice, |western|) + PracticeRows(opts.nPractice, |chinese|)
  {
    var m := Convert(western, chinese, opts, westernDraw, chineseDraw).value;
    FirstRowsArePractice(m.stimuli[..|western|], western, Western, opts.imageBaseUrl, opts.nPractice);
    FirstRowsArePractice(m.stimuli[|western|..], chinese, Chinese, opts.imageBaseUrl, opts.nPractice);
    AssemblePracticeCount(western, chinese, opts);
    CountBelowDefault(western, opts.nPractice);
    CountBelowDefault(chinese, opts.nPractice);
  }

  /** When each group has at least `n` rows and no sampling happens, the
      summary's `practice_trials` and `main_trials` count the flagged
      records exactly. */
  lemma SummaryMatchesRecords(western: seq<Row>, chinese: seq<Row>, opts: Options,
                              westernDraw: seq<nat>, chineseDraw: seq<nat>)
    requires !SamplingRequested(opts.sampleN)
    requires DefaultLabels(western) && DefaultLabels(chinese)
    requires 0 <= opts.nPractice <= |western| && opts.nPractice <= |chinese|
    requires Convert(western, chinese, opts, westernDraw, chineseDraw).Success?
    ensures var m := Convert(western, chinese, opts, westernDraw, chineseDraw).value;
      && m.info.practiceTrials == PracticeCount(m.stimuli)
      && m.info.mainTrials == |m.stimuli| - PracticeCount(m.stimuli)
  {
    AssemblePracticeCount(western, chinese, opts);
    CountBelowDefault(western, opts.nPractice);
    CountBelowDefault(chinese, opts.nPractice);
  }

  /** With sampling from freshly read tables, a record is practice exactly
      when its drawn (original) position is below `n`, not when it is among
      the first `n` drawn. */
  lemma PracticeWithSampling(western: seq<Row>, chinese: seq<Row>, opts: Options,
                             westernDraw: seq<nat>, chineseDraw: seq<nat>)
    requires ValidDraw(western, opts.sampleN, westernDraw)
    requires ValidDraw(chinese, opts.sampleN, chineseDraw)
    requires SamplingRequested(opts.sampleN)
    requires DefaultLabels(western) && DefaultLabels(chinese)
    requires Convert(western, chinese, opts, westernDraw, chineseDraw).Success?
    ensures var m := Convert(western, chinese, opts, westernDraw, chineseDraw).value;
      && PracticeByLabels(m.stimuli[..|westernDraw|], westernDraw, opts.nPractice)
      && PracticeByLabels(m.stimuli[|westernDraw|..], chineseDraw, opts.nPractice)
  {
    var ws := Sample(western, opts.sampleN, westernDraw).value;
    var cs := Sample(chinese, opts.sampleN, chineseDraw).value;
    var m := Assemble(ws, cs, opts).value;
    SampledGroupPractice(m.stimuli[..|ws|], western, opts.sampleN, westernDraw,
                         Western, opts.imageBaseUrl, opts.nPractice);
    SampledGroupPractice(m.stimuli[|ws|..], chinese, opts.sampleN, chineseDraw,
                         Chinese, opts.imageBaseUrl, opts.nPractice);
  }

  /** With sampling from freshly read tables each group has at most
      `min(n, len)` practice records, possibly fewer, so the summary's
      `practice_trials` never understates them. */
  lemma SampledPracticeBound(western: seq<Row>, chinese: seq<Row>, opts: Options,
                             westernDraw: seq<nat>, chineseDraw: seq<nat>)
    requires ValidDraw(western, opts.sampleN, westernDraw)
    requires ValidDraw(chinese, opts.sampleN, chineseDraw)
    requires SamplingRequested(opts.sampleN)
    requires DefaultLabels(western) && DefaultLabels(chinese)
    requires Convert(western, chinese, opts, westernDraw, chineseDraw).Success?
    ensures var m := Convert(western, chinese, opts, westernDraw, chineseDraw).value;
      && PracticeCount(m.stimuli[..m.info.westernCount]) <= PracticeRows(opts.nPractice, m.info.westernCount)
      && PracticeCount(m.stimuli[m.info.westernCount..]) <= PracticeRows(opts.nPractice, m.info.chineseCount)
      && PracticeCount(m.stimuli) <=
           PracticeRows(opts.nPractice, m.info.westernCount)
           + PracticeRows(opts.nPractice, m.info.chineseCount)
      && (opts.nPractice >= 0 ==> PracticeCount(m.stimuli) <= m.info.practiceTrials)
  {
    var ws := Sample(western, opts.sampleN, westernDraw).value;
    var cs := Sample(chinese, opts.sampleN, chineseDraw).value;
    var m := Assemble(ws, cs, opts).value;
    var a, b := m.stimuli[..|ws|], m.stimuli[|ws|..];
    SampledGroupPractice(a, western, opts.sampleN, westernDraw, Western, opts.imageBaseUrl, opts.nPractice);
    SampledGroupPractice(b, chinese, opts.sampleN, chineseDraw, Chinese, opts.imageBaseUrl, opts.nPractice);
    assert m.stimuli == a + b;
    PracticeCountAppend(a, b);
  }

  /** Sampling keeps original labels, so a sample drawn only from
      positions at or past `n` holds no practice row at all, although
      `practice_trials` still reports `2 * n`. */
  lemma LateDrawsGiveNoPractice(western: seq<Row>, chinese: seq<Row>, opts: Options,
                                westernDraw: seq<nat>, chineseDraw: seq<nat>)
    requires ValidDraw(western, opts.sampleN, westernDraw)
    requires ValidDraw(chinese, opts.sampleN, chineseDraw)
    requires SamplingRequested(opts.sampleN)
    requires DefaultLabels(western) && DefaultLabels(chinese)
    requires forall i :: 0 <= i < |westernDraw| ==> westernDraw[i] >= opts.nPractice
    requires forall i :: 0 <= i < |chineseDraw| ==> chineseDraw[i] >= opts.nPractice
    requires Convert(western, chinese, opts, westernDraw, chineseDraw).Success?
    ensures var m := Convert(western, chinese, opts, westernDraw, chineseDraw).value;
      && PracticeCount(m.stimuli) == 0
      && m.info.practiceTrials == 2 * opts.nPractice
  {
    var ws := Sample(western, opts.sampleN, westernDraw).value;
    var cs := Sample(chinese, opts.sampleN, chineseDraw).value;
    var m := Assemble(ws, cs, opts).value;
    var a, b := m.stimuli[..|ws|], m.stimuli[|ws|..];
    SampledGroupPractice(a, western, opts.sampleN, westernDraw, Western, opts.imageBaseUrl, opts.nPractice);
    SampledGroupPractice(b, chinese, opts.sampleN, chineseDraw, Chinese, opts.imageBaseUrl, opts.nPractice);
    NoFlagsCountZero(a);
    NoFlagsCountZero(b);
    assert m.stimuli == a + b;
    PracticeCountAppend(a, b);
  }

  /** Because both groups share the seed, sampling two freshly read tables
      of the same length flags the same positions of each block as
      practice. */
  lemma SharedSeedSamePracticePattern(western: seq<Row>, chinese: seq<Row>, opts: Options,
                                      pick: (nat, nat) -> seq<nat>)
    requires IsSampler(pick)
    requires SamplingRequested(opts.sampleN)
    requires DefaultLabels(western) && DefaultLabels(chinese)
    requires |western| == |chinese|
    requires ConvertSeeded(western, chinese, opts, pick).Success?
    ensures var m := ConvertSeeded(western, chinese, opts, pick).value;
      var k := m.info.westernCount;
      && k == m.info.chineseCount
      && forall j :: 0 <= j < k ==> m.stimuli[j].isPractice == m.stimuli[k + j].isPractice
  {
    var d := DrawOf(pick, western, opts.sampleN);
    assert d == DrawOf(pick, chinese, opts.sampleN);
    PracticeWithSampling(western, chinese, opts, d, d);
  }
}
