/** The bookkeeping of the render loop of `main.py`: which BlenderProc runs
    are started, in what order, with which pose text and into which output
    folder. Nothing here depends on how the poses are jittered. */
module RenderRuns {
  import opened Text

  /** `IMGS_PER_POSE`: BlenderProc runs per entry of `cam_poses`. */
  const ImgsPerPose: nat := 2

  /** One BlenderProc run: the `cam_pos.txt` it reads and its output folder,
      with the loop positions it was started from. */
  datatype Run = Run(model: nat, pose: nat, img: nat, camPosText: string, output: string)

  /** The order of the three nested loops: `b` is the run after `a`. */
  predicate Follows(a: Run, b: Run, poseCount: nat) {
    if a.img + 1 < ImgsPerPose then b.model == a.model && b.pose == a.pose && b.img == a.img + 1
    else if a.pose + 1 < poseCount then b.model == a.model && b.pose == a.pose + 1 && b.img == 0
    else b.model == a.model + 1 && b.pose == 0 && b.img == 0
  }

  /** Every run follows the one before it. */
  predicate InOrder(runs: seq<Run>, poseCount: nat) {
    forall c :: 0 < c < |runs| ==> Follows(runs[c - 1], runs[c], poseCount)
  }

  /** Run number `first + c` renders into `output_base_path + str(first + c)`. */
  predicate NumberedFrom(runs: seq<Run>, first: nat, outputBase: string) {
    forall c :: 0 <= c < |runs| ==> runs[c].output == outputBase + NatToString(first + c)
  }

  /** The first `n` poses of model `i` are rendered: `ImgsPerPose` runs per
      pose, all of model `i`, numbered on from `first`, in loop order, from the
      first image of the first pose to the last image of pose `n - 1`, each
      reading the text of its pose. */
  predicate PosesRendered(runs: seq<Run>, n: nat, i: nat, first: nat, outputBase: string, texts: seq<string>) {
    && |runs| == n * ImgsPerPose
    && (n > 0 <==> |runs| > 0)
    && NumberedFrom(runs, first, outputBase) && InOrder(runs, |texts|)
    && (n > 0 ==> runs[0].model == i && runs[0].pose == 0 && runs[0].img == 0)
    && (n > 0 ==> LastOf(runs[|runs| - 1], i, n))
    && forall c :: 0 <= c < |runs| ==>
         runs[c].model == i && runs[c].pose < |texts| && runs[c].camPosText == texts[runs[c].pose]
  }

  /** The first `m` models are rendered: every model renders all its poses,
      numbered from 0, in loop order, from the first run of model 0 to the
      last run of model `m - 1`, each run reading the text of its pose as its
      model left it. */
  predicate ModelsRendered(runs: seq<Run>, m: nat, outputBase: string, poseCount: nat, texts: seq<seq<string>>) {
    && |runs| == m * (poseCount * ImgsPerPose)
    && (|runs| > 0 ==> poseCount > 0)
    && NumberedFrom(runs, 0, outputBase) && InOrder(runs, poseCount)
    && (|runs| > 0 ==> runs[0].model == 0 && runs[0].pose == 0 && runs[0].img == 0)
    && (|runs| > 0 ==> LastOf(runs[|runs| - 1], m - 1, poseCount))
    && forall c :: 0 <= c < |runs| ==>
         runs[c].model < m && runs[c].model < |texts| && runs[c].pose < |texts[runs[c].model]| &&
         runs[c].camPosText == texts[runs[c].model][runs[c].pose]
  }

  /** The runs of model `i` continue those of the models before it. */
  lemma ModelsStep(runs: seq<Run>, modelRuns: seq<Run>, i: nat, outputBase: string, poseCount: nat, texts: seq<seq<string>>)
    requires i < |texts| && |texts[i]| == poseCount
    requires ModelsRendered(runs, i, outputBase, poseCount, texts)
    requires PosesRendered(modelRuns, poseCount, i, |runs|, outputBase, texts[i])
    ensures ModelsRendered(runs + modelRuns, i + 1, outputBase, poseCount, texts)
  {
    if |runs| > 0 && |modelRuns| > 0 {
      LastRunOfModel(runs[|runs| - 1], modelRuns[0], i - 1, poseCount);
    }
    AppendRuns(runs, modelRuns, 0, outputBase, poseCount);
    MulStep(i, poseCount * ImgsPerPose);
    var ab := runs + modelRuns;
    if |modelRuns| > 0 {
      assert ab[|ab| - 1] == modelRuns[|modelRuns| - 1];
    }
    if |runs| > 0 {
      assert ab[0] == runs[0];
    }
    forall c | 0 <= c < |ab| ensures ab[c] == if c < |runs| then runs[c] else modelRuns[c - |runs|] { }
  }

  /** `r` is the last run of model `i`: its last pose, its last image. */
  predicate LastOf(r: Run, i: int, poseCount: nat) {
    r.model == i && r.pose + 1 == poseCount && r.img + 1 == ImgsPerPose
  }

  /** After the last image of the last pose comes the first of the next model. */
  lemma LastRunOfModel(r: Run, next: Run, i: int, poseCount: nat)
    requires LastOf(r, i, poseCount) && next.model == i + 1 && next.pose == 0 && next.img == 0
    ensures Follows(r, next, poseCount)
  {
  }

  /** Two stretches of runs join into one, numbered on and in order across
      the seam. */
  lemma AppendRuns(a: seq<Run>, b: seq<Run>, first: nat, outputBase: string, poseCount: nat)
    requires NumberedFrom(a, first, outputBase) && NumberedFrom(b, first + |a|, outputBase)
    requires InOrder(a, poseCount) && InOrder(b, poseCount)
    requires |a| > 0 && |b| > 0 ==> Follows(a[|a| - 1], b[0], poseCount)
    ensures NumberedFrom(a + b, first, outputBase) && InOrder(a + b, poseCount)
  {
    var ab := a + b;
    forall c | 0 <= c < |ab| ensures ab[c].output == outputBase + NatToString(first + c) {
      if c >= |a| {
        assert ab[c] == b[c - |a|];
        assert first + |a| + (c - |a|) == first + c;
      }
    }
    forall c | 0 < c < |ab| ensures Follows(ab[c - 1], ab[c], poseCount) {
      if c > |a| {
        assert ab[c - 1] == b[c - 1 - |a|] && ab[c] == b[c - |a|];
      }
    }
  }

  lemma MulStep(n: nat, p: nat)
    ensures (n + 1) * p == n * p + p
  {
  }

  /** The runs of pose `t` continue those of the poses before it. */
  lemma PosesStep(runs: seq<Run>, poseRuns: seq<Run>, t: nat, i: nat, first: nat, text: string, outputBase: string,
                  texts: seq<string>)
    requires t < |texts| && PosesRendered(runs, t, i, first, outputBase, texts)
    requires text == texts[t]
    requires |poseRuns| == ImgsPerPose && NumberedFrom(poseRuns, first + |runs|, outputBase)
    requires forall j :: 0 <= j < |poseRuns| ==>
               poseRuns[j].model == i && poseRuns[j].pose == t && poseRuns[j].img == j && poseRuns[j].camPosText == text
    ensures PosesRendered(runs + poseRuns, t + 1, i, first, outputBase, texts)
  {
    var ab := runs + poseRuns;
    if t > 0 {
      assert Follows(runs[|runs| - 1], poseRuns[0], |texts|);
    }
    AppendRuns(runs, poseRuns, first, outputBase, |texts|);
    MulStep(t, ImgsPerPose);
    assert ab[|ab| - 1] == poseRuns[|poseRuns| - 1];
    if |runs| > 0 {
      assert ab[0] == runs[0];
    }
    forall c | 0 <= c < |ab| ensures ab[c] == if c < |runs| then runs[c] else poseRuns[c - |runs|] { }
  }

  /** The `for img in range(IMGS_PER_POSE)` loop: one run per image, all
      reading the same pose text, numbered on from `count0`. */
  method PoseRuns(i: nat, t: nat, text: string, outputBase: string, count0: nat)
    returns (count: nat, runs: seq<Run>)
    ensures |runs| == ImgsPerPose && count == count0 + |runs|
    ensures forall j :: 0 <= j < |runs| ==> runs[j] == Run(i, t, j, text, outputBase + NatToString(count0 + j))
    ensures NumberedFrom(runs, count0, outputBase)
  {
    count, runs := count0, [];
    for img := 0 to ImgsPerPose
      invariant |runs| == img && count == count0 + img
      invariant forall j :: 0 <= j < img ==> runs[j] == Run(i, t, j, text, outputBase + NatToString(count0 + j))
    {
      runs := runs + [Run(i, t, img, text, outputBase + NatToString(count))];
      count := count + 1;
    }
  }

  /** Every run writes to its own output folder. */
  lemma RunOutputsDistinct(runs: seq<Run>, outputBase: string, c1: nat, c2: nat)
    requires NumberedFrom(runs, 0, outputBase)
    requires c1 < |runs| && c2 < |runs| && c1 != c2
    ensures runs[c1].output != runs[c2].output
  {
    assert runs[c1].output == outputBase + NatToString(0 + c1);
    assert runs[c2].output == outputBase + NatToString(0 + c2);
    NumberedNamesDistinct(outputBase, [], c1, c2);
    assert outputBase + NatToString(c1) + [] == outputBase + NatToString(c1);
    assert outputBase + NatToString(c2) + [] == outputBase + NatToString(c2);
  }
}
