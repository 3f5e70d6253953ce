# Stimulus manifest builder, modelled in Dafny

`convert_stimuli.py` turns two CSV tables of face images into one JSON
manifest for a browser experiment. One table is the "western" (Google)
table and the other the "chinese" (Baidu) table. This project models the pure
transform inside `convert_to_stimuli`:

- it may subsample each table (`sample_n`);
- it normalises every row into a fixed-shape stimulus record: image URL,
  source label, image id, practice flag, original path, and race, gender
  and age metadata;
- it concatenates the western records and then the chinese records;
- it computes the `experiment_info` summary.

It also models `extract_filename`, the POSIX basename of a path.

Modules, one per concept:

- `Outcomes` (outcomes.dfy): `Option`, `Result` and the two ways a conversion
  stops. A row without `image_path` raises a `KeyError` in the source, and
  here gives `MissingColumn`. A negative sample size makes the table library
  raise a `ValueError`, and here gives `NegativeSampleSize`.
- `Paths` (paths.dfy): `ExtractFilename`, characterised as the unique
  last `/`-free component of a path.
- `Tables` (tables.dfy): a row is its pandas *index label* plus its cells
  (`map<string, string>`). The file also holds `row.get(col, '')` and
  sampling, plus counting facts about labels.
- `Stimuli` (stimuli.dfy): the record datatype and the derivation relation
  `RecordOf`. It holds per-row and per-table normalisation, and practice
  counting.
- `Manifests` (manifest.dfy): `Assemble`, which covers normalisation,
  concatenation and the summary (`Summarize`). `Convert` samples first and
  then assembles, with one draw per table given by the caller.
  `ConvertSeeded` draws both with one seeded sampler. `DefaultOptions`
  records the keyword defaults of lines 25-26. The module also holds
  the lemmas about ordering, practice flags and the summary.
- `Scenarios` (scenarios.dfy): concrete conversions.

A `Stimulus` field corresponds to the JSON key of the same meaning:
`image`, `source`, `image_id`, `is_practice`, `original_path`, `race`,
`gender` and `age`.

Behaviour of `convert_stimuli.py` that is easy to misread, and that the
model keeps as written:

- **Practice flags use the index label, not the position.** `iterrows()`
  yields the DataFrame index label, and `DataFrame.sample` keeps the
  original labels. So `is_practice` is `label < n_practice_per_group`.
  Without sampling the labels are `0 .. len-1`, so the first `min(n, len)`
  records of each group are practice (`PracticeWithoutSampling`). With
  sampling, the practice rows are the drawn rows whose original position was
  below `n`. There can be fewer than `n` of them, or none at all
  (`PracticeWithSampling`, `LateDrawsGiveNoPractice`).
- **`if sample_n:` skips sampling for both a missing value and `0`.** A
  negative value is passed on to the sampler, which refuses it. Nothing
  checks `n_practice_per_group`: a negative value flags no row and gives a
  negative `practice_trials`.
- **A missing `image_path` column fails on the first row that is read.** It
  does not fail when the table is loaded, so an empty table without that
  column converts without error (`NormalizeTable`, `Assemble`).
- **`practice_trials` is always `2 * n`.** When a group has fewer than `n`
  rows, this can exceed `total_stimuli`, and `main_trials` goes negative
  (`SmallGroupsNegativeMainTrials`). The formula is kept as written.

## Model

| member | source | states |
|---|---|---|
| Paths.ExtractFilename | convert_stimuli.py:21-23 | The file name is a suffix of the path and contains no `/`. It is either the whole path or starts right after a `/`. It is the whole path when the path has no `/`, and empty when the path ends in `/`. |
| Paths.LastComponentUnique | convert_stimuli.py:21-23 | Any suffix meeting that characterisation is the extracted file name, so the characterisation pins the result down. |
| Paths.JoinThenExtract | convert_stimuli.py:21-23 | Extracting the file name of `dir + "/" + name`, where `name` has no `/`, gives back `name`. |
| Paths.ExtractFilenameIdempotent | convert_stimuli.py:21-23 | Extracting a file name from a file name changes nothing. |
| Tables.Get | convert_stimuli.py:72-74 | `row.get(column, '')` returns the cell when the column is present and `""` when it is absent. |
| Tables.SampleSize | convert_stimuli.py:54-55 | The size asked of the sampler is `min(sample_n, len)`: at most each of the two, and equal to one of them. |
| Tables.Sample | convert_stimuli.py:53-55 | With no sample size or size 0, the table is unchanged. A negative size is an error. Otherwise the result has `min(sample_n, len)` rows, the rows at the drawn distinct positions in draw order with their original labels, and every row comes from the input table. |
| Tables.SampledLabelsAreDraw | convert_stimuli.py:54-55 | Sampling a freshly read table gives rows whose labels are exactly the drawn positions. They are therefore distinct and below the original length. |
| Tables.DrawOf | convert_stimuli.py:53-55 | The draw a seeded sampler makes for a table is a valid draw for it: the right size, in range and distinct. |
| Tables.CountBelowDefault | convert_stimuli.py:61-63 | With labels `0 .. len-1`, exactly `min(n, len)` labels are below `n`, and none when `n <= 0`. |
| Tables.DistinctCountBelowBound | convert_stimuli.py:54-63 | Distinct labels put at most `n` entries below `n`. This is the pigeonhole fact behind the practice bound under sampling. |
| Stimuli.NormalizeRow | convert_stimuli.py:61-75 | The record exists exactly when the row has `image_path`; otherwise the error is `MissingColumn("image_path")`. The record satisfies the derivation relation: verbatim path, file name as id, `image == base + source + "/" + image_id`, source label of the group, practice iff label `< n`, and metadata defaulting to `""`. |
| Stimuli.RecordOfUnique | convert_stimuli.py:62-74 | The derivation relation has a single solution per row: the record that normalisation returns. |
| Stimuli.NormalizeTable | convert_stimuli.py:61-75 | Normalising a table succeeds exactly when every row has `image_path`. It then gives one record per row, in row order, each related to its row by the derivation. |
| Stimuli.NormalizedUnique | convert_stimuli.py:61-75 | Two record lists that both derive from the same rows are equal. |
| Stimuli.ImageNamesSameFile | convert_stimuli.py:62-70 | The file name of a record's image URL is its `image_id`, and so is the file name of its original path: the URL and the source path name the same file. |
| Stimuli.FirstRowsArePractice | convert_stimuli.py:61-63 | For a freshly read table, record `i` is practice iff `i < n`, and there are `min(n, len)` practice records. |
| Stimuli.DistinctLabelsBoundPractice | convert_stimuli.py:54-63 | When the labels are distinct, at most `min(n, len)` records are practice. |
| Stimuli.SampledGroupPractice | convert_stimuli.py:53-63 | For a sample of a freshly read table, record `i` is practice iff drawn position `i` is below `n`, and at most `min(n, len)` records are practice. |
| Manifests.Assemble | convert_stimuli.py:58-104 | Covers the two loops and `Summarize`. Assembly succeeds iff every row of both tables has `image_path`. Then `total_stimuli == len(stimuli) == western_count + chinese_count`, the counts are the table sizes, `practice_trials == 2 * n` and `main_trials == total_stimuli - practice_trials`. The first `western_count` records derive from the western rows and the rest from the chinese rows, in table order. |
| Manifests.Convert | convert_stimuli.py:52-104 | A negative sample size fails with `NegativeSampleSize`. Otherwise both tables are sampled successfully and the result is the assembly of the sampled tables. Without sampling, it is the assembly of the input tables themselves. |
| Manifests.ConvertSeeded | convert_stimuli.py:52-104 | With one seeded sampler shared by both groups: without sampling, the result is the assembly of the input tables. A negative size fails. Otherwise each table is sampled at `pick(its length, min(sample_n, its length))`, a valid draw, and the result is the assembly of the two samples. In particular, two tables of equal length are sampled at the same positions. |
| Manifests.SharedSeedSamePracticePattern | convert_stimuli.py:53-80 | Sampling two freshly read tables of equal length flags the same positions of the western and chinese blocks as practice, because both groups share the seed. |
| Manifests.GroupsInTableOrder | convert_stimuli.py:58-92 | Record `i` has source `"western"` iff `i < western_count`, and source `"chinese"` iff `i >= western_count`. |
| Manifests.PracticeWithoutSampling | convert_stimuli.py:61-80 | Without sampling, within each group's block the record at position `j` is practice iff `j < n`. The number of practice records is `min(n, len(western)) + min(n, len(chinese))`. |
| Manifests.SummaryMatchesRecords | convert_stimuli.py:95-99 | Without sampling, and with both groups holding at least `n >= 0` rows, `practice_trials` is the number of flagged records and `main_trials` the number of unflagged ones. |
| Manifests.PracticeWithSampling | convert_stimuli.py:53-80 | With sampling, a record in either block is practice iff its drawn original position is below `n`. This is not the same as being among the first `n` records drawn. |
| Manifests.SampledPracticeBound | convert_stimuli.py:53-99 | With sampling, each group's block has at most `min(n, group size)` practice records, and the total is at most the sum of the two bounds. So `practice_trials` never understates them when `n >= 0`. |
| Manifests.LateDrawsGiveNoPractice | convert_stimuli.py:53-98 | A sample drawn only from positions `>= n` has no practice record, while `practice_trials` still reports `2 * n`. |
| Scenarios.ThreeRowScenario | convert_stimuli.py:58-104 | Two western paths and one chinese path with `n = 1` and base `images/` give three records in table order. The first record of each group is practice, the URLs are `images/western/001.jpg` and so on, and the summary is `{3, 2, 1, 2, 1}`. |
| Scenarios.SmallGroupsNegativeMainTrials | convert_stimuli.py:95-99 | One row per group with `n = 3` gives `practice_trials == 6` against 2 stimuli, a `main_trials` of `-4`, and 2 actual practice records. |

## Left out

- CSV parsing (`pd.read_csv`, lines 47-48): tables are given already parsed.
  A freshly read table is one whose labels are `0 .. len-1`
  (`DefaultLabels`).
- Cell types: pandas infers numbers and NaN for blank cells. Every cell is a
  string here, and only the absent-column default of `row.get` is modelled.
  A present-but-blank metadata cell yields a float NaN in the source, not
  `""`.
- Tables.Sample: which positions `DataFrame.sample(random_state=42)` picks
  is not modelled. `Sample` and `Convert` take the drawn positions as
  arguments, constrained only by size, range and distinctness, so `Convert`
  says only that the same draws give the same manifest. `ConvertSeeded`
  keeps the shared seed: one sampler `pick(len, size)` draws for both
  groups. The sampler's actual output for seed 42 is still left open.
- JSON serialisation and file writing (lines 107-108), every `print`
  (lines 50, 56, 110-125) and the argument parsing in `main` (lines 129-150):
  these are I/O and command-line glue.
- Windows path separators in `os.path.basename`: only POSIX `/` is modelled.
- Validation of negative `n_practice_per_group`: the source does none, so
  the model does none either.
