/** Concrete conversions that pin the model to the behaviour of
    convert_stimuli.py on small inputs. */
module Scenarios {
  import opened Outcomes
  import opened Paths
  import opened Tables
  import opened Stimuli
  import opened Manifests

  /** A freshly read row holding only an image path. */
  function PathRow(index: nat, path: string): (row: Row)
    ensures row.index == index
    ensures ImagePathColumn in row.cells && row.cells[ImagePathColumn] == path
    ensures RaceColumn !in row.cells && GenderColumn !in row.cells && AgeColumn !in row.cells
  {
    Row(index, map[ImagePathColumn := path])
  }

  const W0: Stimulus := Stimulus("images/western/001.jpg", "western", "001.jpg", true, "/data/a/001.jpg", "", "", "")
  const W1: Stimulus := Stimulus("images/western/002.jpg", "western", "002.jpg", false, "/data/a/002.jpg", "", "", "")
  const C0: Stimulus := Stimulus("images/chinese/999.jpg", "chinese", "999.jpg", true, "/data/b/999.jpg", "", "", "")

  /** Row 0 of the western scenario table yields `W0`: its file name
      and its image URL, then the whole record. */
  lemma ScenarioFilenameW0()
    ensures ExtractFilename("/data/a/001.jpg") == "001.jpg"
  {
    assert "/data/a/001.jpg" == "/data/a" + [Separator] + "001.jpg";
    JoinThenExtract("/data/a", "001.jpg");
  }

  lemma ScenarioUrlW0()
    ensures W0.image == "images/" + Western.Label() + [Separator] + "001.jpg"
  {
  }

  lemma ScenarioRecordW0()
    ensures RecordOf(W0, PathRow(0, "/data/a/001.jpg"), Western, "images/", 1)
  {
    ScenarioFilenameW0();
    ScenarioUrlW0();
  }

  /** Row 1 of the western scenario table yields `W1`: its file name
      and its image URL, then the whole record. */
  lemma ScenarioFilenameW1()
    ensures ExtractFilename("/data/a/002.jpg") == "002.jpg"
  {
    assert "/data/a/002.jpg" == "/data/a" + [Separator] + "002.jpg";
    JoinThenExtract("/data/a", "002.jpg");
  }

  lemma ScenarioUrlW1()
    ensures W1.image == "images/" + Western.Label() + [Separator] + "002.jpg"
  {
  }

  lemma ScenarioRecordW1()
    ensures RecordOf(W1, PathRow(1, "/data/a/002.jpg"), Western, "images/", 1)
  {
    ScenarioFilenameW1();
    ScenarioUrlW1();
  }

  /** Row 0 of the chinese scenario table yields `C0`: its file name
      and its image URL, then the whole record. */
  lemma ScenarioFilenameC0()
    ensures ExtractFilename("/data/b/999.jpg") == "999.jpg"
  {
    assert "/data/b/999.jpg" == "/data/b" + [Separator] + "999.jpg";
    JoinThenExtract("/data/b", "999.jpg");
  }

  lemma ScenarioUrlC0()
    ensures C0.image == "images/" + Chinese.Label() + [Separator] + "999.jpg"
  {
  }

  lemma ScenarioRecordC0()
    ensures RecordOf(C0, PathRow(0, "/data/b/999.jpg"), Chinese, "images/", 1)
  {
    ScenarioFilenameC0();
    ScenarioUrlC0();
  }

  /** The scenario's western rows yield `W0` (practice) and `W1`. */
  lemma ScenarioWesternRecords()
    ensures Normalized([W0, W1], [PathRow(0, "/data/a/001.jpg"), PathRow(1, "/data/a/002.jpg")],
                       Western, "images/", 1)
  {
    var t := [PathRow(0, "/data/a/001.jpg"), PathRow(1, "/data/a/002.jpg")];
    ScenarioRecordW0();
    ScenarioRecordW1();
    forall i | 0 <= i < 2
      ensures RecordOf([W0, W1][i], t[i], Western, "images/", 1)
    {
    }
  }

  /** The scenario's chinese row yields `C0`, practice as the first of its
      group. */
  lemma ScenarioChineseRecords()
    ensures Normalized([C0], [PathRow(0, "/data/b/999.jpg")], Chinese, "images/", 1)
  {
    var t := [PathRow(0, "/data/b/999.jpg")];
    ScenarioRecordC0();
    forall i | 0 <= i < 1
      ensures RecordOf([C0][i], t[i], Chinese, "images/", 1)
    {
    }
  }

  /** Two western rows and one chinese row, one practice row per group:
      three stimuli in table order, the first of each group practice, and
      the summary `{3, 2, 1, 2, 1}`. */
  lemma ThreeRowScenario()
    ensures Convert([PathRow(0, "/data/a/001.jpg"), PathRow(1, "/data/a/002.jpg")],
                    [PathRow(0, "/data/b/999.jpg")], Options("images/", 1, None), [], [])
         == Success(Manifest(Summary(3, 2, 1, 2, 1), [W0, W1, C0]))
  {
    var western := [PathRow(0, "/data/a/001.jpg"), PathRow(1, "/data/a/002.jpg")];
    var chinese := [PathRow(0, "/data/b/999.jpg")];
    var opts := Options("images/", 1, None);
    var r := Convert(western, chinese, opts, [], []);
    assert r.Success?;
    var m := r.value;
    ScenarioWesternRecords();
    ScenarioChineseRecords();
    NormalizedUnique(m.stimuli[..2], [W0, W1], western, Western, "images/", 1);
    NormalizedUnique(m.stimuli[2..], [C0], chinese, Chinese, "images/", 1);
    assert m.stimuli == m.stimuli[..2] + m.stimuli[2..] == [W0, W1] + [C0];
    assert m.stimuli == [W0, W1, C0];
    assert m.info == Summary(3, 2, 1, 2, 1);
  }

  /** Groups smaller than the practice count: one row each and three
      practice rows per group give `practice_trials` 6 against 2 stimuli,
      and a negative `main_trials`. */
  lemma SmallGroupsNegativeMainTrials()
    ensures var r := Convert([PathRow(0, "a.jpg")], [PathRow(0, "b.jpg")],
                             Options("images/", 3, None), [], []);
      && r.Success?
      && r.value.info.totalStimuli == 2
      && r.value.info.practiceTrials == 6
      && r.value.info.mainTrials == -4
      && PracticeCount(r.value.stimuli) == 2
  {
    PracticeWithoutSampling([PathRow(0, "a.jpg")], [PathRow(0, "b.jpg")],
                            Options("images/", 3, None), [], []);
  }
}
