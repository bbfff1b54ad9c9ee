/** Camera poses of the inspection path: loading them from the pose file,
    multiplying and jittering them, writing one as the `cam_pos.txt` line, and
    the render loop that numbers the BlenderProc outputs.

    A pose is the tuple `([X, Y, Z], [A, B, C])` of two Python lists; the lists
    are mutable and are shared by every copy of the pose, so they are arrays
    here and a pose is an object holding them. */
module CameraPoses {
  import opened Wrappers
  import opened Draws
  import opened Text
  import opened RenderRuns

  const DefectModelsAmount: nat := 15
  const RandPosesPerPose: nat := 2

  /** Every base pose appears this many times in `cam_poses`. */
  const Repeats: nat := 1 + RandPosesPerPose

  /** Half-widths of the two `random.uniform` ranges of the jitter. */
  const LocJitter: real := 0.1
  const RotJitter: real := 0.0349

  class Pose {
    const loc: array<real>
    const rot: array<real>

    constructor (l: seq<real>, r: seq<real>)
      ensures loc[..] == l && rot[..] == r
      ensures fresh(loc) && fresh(rot) && loc != rot
    {
      loc := new real[|l|](i requires 0 <= i < |l| => l[i]);
      rot := new real[|r|](i requires 0 <= i < |r| => r[i]);
    }
  }

  /** Every list of every pose is its own: no two poses share a list and no
      pose uses one list twice. Poses built by `LoadPoses` are like this. */
  predicate Separate(poses: seq<Pose>) {
    forall i, j :: 0 <= i < |poses| && 0 <= j < |poses| ==>
      poses[i].loc != poses[j].rot &&
      (i != j ==> poses[i].loc != poses[j].loc && poses[i].rot != poses[j].rot)
  }

  /** The lists of the poses. */
  function Lists(poses: seq<Pose>): set<array<real>> {
    (set k | 0 <= k < |poses| :: poses[k].loc) + (set k | 0 <= k < |poses| :: poses[k].rot)
  }

  // =====================================================================
  // Loading the inspection path (one dict literal per line)
  // =====================================================================

  const LocKeys: seq<string> := ["X", "Y", "Z"]
  const RotKeys: seq<string> := ["A", "B", "C"]

  /** The keys in the order the tuple expression looks them up. */
  const PoseKeys: seq<string> := LocKeys + RotKeys

  /** The index in `PoseKeys` of the first key the line lacks: the lookup that
      raises KeyError. */
  function FirstMissing(d: map<string, real>): (r: Option<nat>)
    ensures r.None? <==> forall j :: 0 <= j < |PoseKeys| ==> PoseKeys[j] in d
    ensures r.Some? ==> r.value < |PoseKeys| && PoseKeys[r.value] !in d &&
                        forall j :: 0 <= j < r.value ==> PoseKeys[j] in d
  {
    FirstMissingFrom(d, 0)
  }

  function FirstMissingFrom(d: map<string, real>, from: nat): (r: Option<nat>)
    requires from <= |PoseKeys|
    ensures r.None? <==> forall j :: from <= j < |PoseKeys| ==> PoseKeys[j] in d
    ensures r.Some? ==> from <= r.value < |PoseKeys| && PoseKeys[r.value] !in d &&
                        forall j :: from <= j < r.value ==> PoseKeys[j] in d
    decreases |PoseKeys| - from
  {
    if from == |PoseKeys| then None
    else if PoseKeys[from] !in d then Some(from)
    else FirstMissingFrom(d, from + 1)
  }

  /** The values of the given keys, in order. */
  function Lookup(d: map<string, real>, keys: seq<string>): (r: seq<real>)
    requires forall j :: 0 <= j < |keys| ==> keys[j] in d
    ensures |r| == |keys| && forall j :: 0 <= j < |keys| ==> r[j] == d[keys[j]]
  {
    seq(|keys|, j requires 0 <= j < |keys| => d[keys[j]])
  }

  /** Lines 206-212: one pose per line, in file order. A line without one of
      the six keys aborts the load; `failure` then names the line and the key. */
  method LoadPoses(lines: seq<map<string, real>>) returns (poses: seq<Pose>, failure: Option<(nat, string)>)
    ensures failure.None? ==>
              && |poses| == |lines|
              && (forall k :: 0 <= k < |lines| ==> FirstMissing(lines[k]).None?)
              && (forall k :: 0 <= k < |lines| ==>
                    poses[k].loc[..] == Lookup(lines[k], LocKeys) && poses[k].rot[..] == Lookup(lines[k], RotKeys))
              && Separate(poses)
    ensures failure.Some? ==>
              && failure.value.0 < |lines|
              && (forall k :: 0 <= k < failure.value.0 ==> FirstMissing(lines[k]).None?)
              && var m := FirstMissing(lines[failure.value.0]);
                 m.Some? && failure.value.1 == PoseKeys[m.value]
    ensures forall k :: 0 <= k < |poses| ==> fresh(poses[k].loc) && fresh(poses[k].rot)
  {
    poses := [];
    for k := 0 to |lines|
      invariant |poses| == k
      invariant forall j :: 0 <= j < k ==> FirstMissing(lines[j]).None?
      invariant forall j :: 0 <= j < k ==>
                  poses[j].loc[..] == Lookup(lines[j], LocKeys) && poses[j].rot[..] == Lookup(lines[j], RotKeys)
      invariant forall j :: 0 <= j < k ==> fresh(poses[j].loc) && fresh(poses[j].rot)
      invariant Separate(poses)
    {
      var d := lines[k];
      var missing := FirstMissing(d);
      if missing.Some? {
        failure := Some((k, PoseKeys[missing.value]));
        return;
      }
      var p := LoadPose(d);
      SeparateFresh(poses, p);
      poses := poses + [p];
    }
    failure := None;
  }

  /** Line 210: the pose of one line that has all six keys. */
  method LoadPose(d: map<string, real>) returns (p: Pose)
    requires FirstMissing(d).None?
    ensures (forall j :: 0 <= j < |LocKeys| ==> LocKeys[j] in d) && (forall j :: 0 <= j < |RotKeys| ==> RotKeys[j] in d)
    ensures p.loc[..] == Lookup(d, LocKeys) && p.rot[..] == Lookup(d, RotKeys)
    ensures fresh(p.loc) && fresh(p.rot) && p.loc != p.rot
  {
    assert forall j :: 0 <= j < 3 ==> LocKeys[j] == PoseKeys[j] && RotKeys[j] == PoseKeys[3 + j];
    p := new Pose(Lookup(d, LocKeys), Lookup(d, RotKeys));
  }

  /** A pose with lists of its own keeps the poses separate. */
  lemma SeparateFresh(poses: seq<Pose>, p: Pose)
    requires Separate(poses) && p.loc != p.rot
    requires forall j :: 0 <= j < |poses| ==> p.loc !in {poses[j].loc, poses[j].rot} && p.rot !in {poses[j].loc, poses[j].rot}
    ensures Separate(poses + [p])
  {
  }

  // =====================================================================
  // cam_pos_writer
  // =====================================================================

  /** `str(num) + " "` for every number, in order. */
  function Serialize(vals: seq<real>, show: real -> string): string
    decreases |vals|
  {
    if vals == [] then [] else Serialize(vals[..|vals| - 1], show) + show(vals[|vals| - 1]) + " "
  }

  /** The text `cam_pos_writer` leaves in the file: the numbers of the
      location list and then of the rotation list, each followed by a space.
      `show` is Python's `str` on a float. */
  method CamPosWriter(camPos: Pose, show: real -> string) returns (text: string)
    ensures text == Serialize(camPos.loc[..] + camPos.rot[..], show)
  {
    text := [];
    var entries := [camPos.loc, camPos.rot];
    ghost var written: seq<real> := [];
    for e := 0 to |entries|
      invariant written == (if e == 0 then [] else if e == 1 then camPos.loc[..] else camPos.loc[..] + camPos.rot[..])
      invariant text == Serialize(written, show)
    {
      var entry := entries[e];
      ghost var before := written;
      for j := 0 to entry.Length
        invariant written == before + entry[..j]
        invariant text == Serialize(written, show)
      {
        text := text + show(entry[j]) + " ";
        assert (written + [entry[j]])[..|written|] == written;
        written := written + [entry[j]];
        assert entry[..j + 1] == entry[..j] + [entry[j]];
      }
      assert entry[..entry.Length] == entry[..];
    }
  }

  /** The tokens, each closed by a space, and an empty rest. */
  function Tokens(vals: seq<real>, show: real -> string): (ts: seq<string>)
    ensures |ts| == |vals| + 1
  {
    seq(|vals|, i requires 0 <= i < |vals| => show(vals[i])) + [""]
  }

  lemma {:induction false} SerializeJoin(vals: seq<real>, show: real -> string)
    ensures Serialize(vals, show) == JoinOn(Tokens(vals, show), ' ')
    decreases |vals|
  {
    if vals != [] {
      var init := vals[..|vals| - 1];
      SerializeJoin(init, show);
      JoinSnoc(Tokens(init, show)[..|init|], show(vals[|vals| - 1]), ' ');
      assert Tokens(init, show) == Tokens(init, show)[..|init|] + [""];
      assert Tokens(vals, show) == Tokens(init, show)[..|init|] + [show(vals[|vals| - 1]), ""];
    }
  }

  /** Joining with a last-but-one part added. */
  lemma {:induction false} JoinSnoc(parts: seq<string>, t: string, sep: char)
    ensures JoinOn(parts + [t, ""], sep) == JoinOn(parts + [""], sep) + t + [sep]
    decreases |parts|
  {
    if parts == [] {
      assert ([t, ""])[1..] == [""];
    } else {
      JoinSnoc(parts[1..], t, sep);
      assert (parts + [t, ""])[1..] == parts[1..] + [t, ""];
      assert (parts + [""])[1..] == parts[1..] + [""];
    }
  }

  lemma TokensSpaceFree(vals: seq<real>, show: real -> string)
    requires forall i :: 0 <= i < |vals| ==> ' ' !in show(vals[i])
    ensures forall i :: 0 <= i < |Tokens(vals, show)| ==> ' ' !in Tokens(vals, show)[i]
  {
    var ts := Tokens(vals, show);
    forall i | 0 <= i < |ts| ensures ' ' !in ts[i] {
      if i < |vals| { assert ts[i] == show(vals[i]); } else { assert ts[i] == ""; }
    }
  }

  /** Reading the line back: splitting on spaces gives the printed numbers in
      order and an empty rest, so a pose of two three-element lists yields six
      tokens. */
  lemma SerializeSplit(vals: seq<real>, show: real -> string)
    requires forall i :: 0 <= i < |vals| ==> ' ' !in show(vals[i])
    ensures SplitOn(Serialize(vals, show), ' ') == Tokens(vals, show)
  {
    SerializeJoin(vals, show);
    TokensSpaceFree(vals, show);
    SplitJoin(Tokens(vals, show), ' ');
  }

  // =====================================================================
  // generate_additional_poses
  // =====================================================================

  /** The draw added to entry `ctr` of a list: ±0.1 for the first three
      entries, ±0.0349 after them. */
  function Jitter(ctr: nat, u: real): (d: real)
    requires IsUnit(u)
    ensures ctr < 3 ==> -LocJitter <= d <= LocJitter
    ensures ctr >= 3 ==> -RotJitter <= d <= RotJitter
  {
    if ctr < 3 then Uniform(-LocJitter, LocJitter, u) else Uniform(-RotJitter, RotJitter, u)
  }

  predicate Units(us: seq<real>) {
    forall i :: 0 <= i < |us| ==> IsUnit(us[i])
  }

  /** One pass of the `for v in range(len(l))` loop over a list: `ctr` starts
      at 0 for each list, so entry `v` sees `ctr == v`. */
  function Visit(vals: seq<real>, us: seq<real>): (r: seq<real>)
    requires |us| == |vals| && Units(us)
    ensures |r| == |vals|
  {
    seq(|vals|, v requires 0 <= v < |vals| => vals[v] + Jitter(v, us[v]))
  }

  predicate FitsAll(n: nat, uss: seq<seq<real>>) {
    forall m :: 0 <= m < |uss| ==> |uss[m]| == n && Units(uss[m])
  }

  /** Several passes over one list, in order. */
  function VisitAll(vals: seq<real>, uss: seq<seq<real>>): (r: seq<real>)
    requires FitsAll(|vals|, uss)
    ensures |r| == |vals|
    decreases |uss|
  {
    if uss == [] then vals else Visit(VisitAll(vals, uss[..|uss| - 1]), uss[|uss| - 1])
  }

  /** Passes can be grouped freely. */
  lemma {:induction false} VisitAllAppend(vals: seq<real>, a: seq<seq<real>>, b: seq<seq<real>>)
    requires FitsAll(|vals|, a) && FitsAll(|vals|, b)
    ensures FitsAll(|vals|, a + b)
    ensures VisitAll(vals, a + b) == VisitAll(VisitAll(vals, a), b)
    decreases |b|
  {
    VisitAllAppendFits(|vals|, a, b);
    if b != [] {
      var b0, last := b[..|b| - 1], b[|b| - 1];
      assert (a + b)[..|a + b| - 1] == a + b0;
      assert (a + b)[|a + b| - 1] == last;
      VisitAllAppend(vals, a, b0);
      var w := VisitAll(vals, a);
      calc {
        VisitAll(vals, a + b);
        Visit(VisitAll(vals, a + b0), last);
        Visit(VisitAll(w, b0), last);
        VisitAll(w, b);
      }
    } else {
      assert a + b == a;
    }
  }

  /** The widest jitter entry `v` can get. */
  function Bound(v: nat): real {
    if v < 3 then LocJitter else RotJitter
  }

  /** `n` steps of width `b`, added up. */
  function Band(n: nat, b: real): real {
    if n == 0 then 0.0 else Band(n - 1, b) + b
  }

  lemma {:induction false} BandIsProduct(n: nat, b: real)
    ensures Band(n, b) == n as real * b
  {
    if n > 0 {
      BandIsProduct(n - 1, b);
      assert n as real * b == (n - 1) as real * b + b;
    }
  }

  /** After n passes an entry has moved by at most n times its bound, in
      either direction (`Band(n, b)` is `n * b`, by `BandIsProduct`). */
  lemma {:induction false} VisitAllBounded(vals: seq<real>, uss: seq<seq<real>>, v: nat)
    requires FitsAll(|vals|, uss) && v < |vals|
    ensures vals[v] - Band(|uss|, Bound(v)) <= VisitAll(vals, uss)[v] <= vals[v] + Band(|uss|, Bound(v))
    decreases |uss|
  {
    if uss != [] {
      var n := |uss| - 1;
      VisitAllBounded(vals, uss[..n], v);
      assert VisitAll(vals, uss)[v] == VisitAll(vals, uss[..n])[v] + Jitter(v, uss[n][v]);
    }
  }

  /** For lists of at most three entries, the source's case, every entry,
      rotation included, gets the ±0.1 draw: the ±0.0349 branch is never taken. */
  lemma ShortListsUseLocRange(vals: seq<real>, us: seq<real>)
    requires |us| == |vals| <= 3 && Units(us)
    ensures forall v :: 0 <= v < |vals| ==> Visit(vals, us)[v] == vals[v] + Uniform(-LocJitter, LocJitter, us[v])
  {
  }

  datatype PoseDraws = PoseDraws(loc: seq<real>, rot: seq<real>)

  /** The draws of one visit fit the lists of the pose. */
  predicate Fits(p: Pose, d: PoseDraws) {
    |d.loc| == p.loc.Length && Units(d.loc) && |d.rot| == p.rot.Length && Units(d.rot)
  }

  /** The draws of one call of `generate_additional_poses`: `draws[k][r]` are
      those of the r-th copy of base pose k, which is entry `Repeats * k + r` of
      `cam_poses`. */
  type CallDraws = seq<seq<PoseDraws>>

  predicate DrawsFit(base: seq<Pose>, draws: CallDraws) {
    && |draws| == |base|
    && forall k :: 0 <= k < |base| ==> |draws[k]| == Repeats && forall r :: 0 <= r < Repeats ==> Fits(base[k], draws[k][r])
  }

  /** The first `n` location passes base pose `k` receives. */
  function LocVisits(base: seq<Pose>, draws: CallDraws, k: nat, n: nat): (r: seq<seq<real>>)
    requires DrawsFit(base, draws) && k < |base| && n <= Repeats
    ensures |r| == n && FitsAll(base[k].loc.Length, r)
  {
    seq(n, j requires 0 <= j < n => draws[k][j].loc)
  }

  function RotVisits(base: seq<Pose>, draws: CallDraws, k: nat, n: nat): (r: seq<seq<real>>)
    requires DrawsFit(base, draws) && k < |base| && n <= Repeats
    ensures |r| == n && FitsAll(base[k].rot.Length, r)
  {
    seq(n, j requires 0 <= j < n => draws[k][j].rot)
  }

  /** How many of its `Repeats` visits base pose `k` has had once the first `t`
      entries of `cam_poses` are done. */
  function Done(k: nat, t: nat): (n: nat)
    ensures n <= Repeats
  {
    if t <= Repeats * k then 0 else if t >= Repeats * (k + 1) then Repeats else t - Repeats * k
  }

  /** One entry of `cam_poses`: both of its lists are jittered. */
  method JitterPose(p: Pose, d: PoseDraws)
    requires p.loc != p.rot && Fits(p, d)
    modifies p.loc, p.rot
    ensures p.loc[..] == Visit(old(p.loc[..]), d.loc)
    ensures p.rot[..] == Visit(old(p.rot[..]), d.rot)
  {
    JitterList(p.loc, d.loc);
    JitterList(p.rot, d.rot);
  }

  /** The `ctr` loop over one list. */
  method JitterList(l: array<real>, us: seq<real>)
    requires |us| == l.Length && Units(us)
    modifies l
    ensures l[..] == Visit(old(l[..]), us)
  {
    var ctr := 0;
    for v := 0 to l.Length
      invariant ctr == v
      invariant forall j :: 0 <= j < v ==> l[j] == old(l[j]) + Jitter(j, us[j])
      invariant forall j :: v <= j < l.Length ==> l[j] == old(l[j])
    {
      if ctr < 3 {
        l[v] := l[v] + Uniform(-LocJitter, LocJitter, us[v]);
      } else {
        l[v] := l[v] + Uniform(-RotJitter, RotJitter, us[v]);
      }
      ctr := ctr + 1;
    }
  }

  /** `generate_additional_poses(base_poses)`: every base pose `Repeats` times
      in a row, as the same object, then each entry jittered in turn. Because
      the entries are shared, each base pose is jittered `Repeats` times, and the
      base poses themselves change. */
  method GenerateAdditionalPoses(base: seq<Pose>, draws: CallDraws) returns (camPoses: seq<Pose>)
    requires Separate(base) && DrawsFit(base, draws)
    modifies Lists(base)
    ensures |camPoses| == Repeats * |base|
    ensures forall t :: 0 <= t < |camPoses| ==> camPoses[t] == base[t / Repeats]
    ensures forall k :: 0 <= k < |base| ==>
              base[k].loc[..] == VisitAll(old(base[k].loc[..]), LocVisits(base, draws, k, Repeats)) &&
              base[k].rot[..] == VisitAll(old(base[k].rot[..]), RotVisits(base, draws, k, Repeats))
  {
    camPoses := [];
    for k := 0 to |base|
      invariant |camPoses| == Repeats * k
      invariant forall t :: 0 <= t < |camPoses| ==> camPoses[t] == base[t / Repeats]
    {
      for i := 0 to Repeats
        invariant |camPoses| == Repeats * k + i
        invariant forall t :: 0 <= t < |camPoses| ==> camPoses[t] == base[t / Repeats]
      {
        camPoses := camPoses + [base[k]];
      }
    }
    ghost var locs0 := seq(|base|, k requires 0 <= k < |base| reads Lists(base) => base[k].loc[..]);
    ghost var rots0 := seq(|base|, k requires 0 <= k < |base| reads Lists(base) => base[k].rot[..]);
    for t := 0 to |camPoses|
      invariant forall k :: 0 <= k < |base| ==>
                  base[k].loc[..] == VisitAll(locs0[k], LocVisits(base, draws, k, Done(k, t))) &&
                  base[k].rot[..] == VisitAll(rots0[k], RotVisits(base, draws, k, Done(k, t)))
    {
      PoseStep(base, draws, locs0, rots0, t);
    }
  }

  /** One iteration of the jitter loop of `GenerateAdditionalPoses`. */
  method PoseStep(base: seq<Pose>, draws: CallDraws, ghost locs0: seq<seq<real>>, ghost rots0: seq<seq<real>>, t: nat)
    requires Separate(base) && DrawsFit(base, draws) && t < Repeats * |base|
    requires |locs0| == |rots0| == |base|
    requires forall k :: 0 <= k < |base| ==> |locs0[k]| == base[k].loc.Length && |rots0[k]| == base[k].rot.Length
    requires forall k :: 0 <= k < |base| ==>
               base[k].loc[..] == VisitAll(locs0[k], LocVisits(base, draws, k, Done(k, t))) &&
               base[k].rot[..] == VisitAll(rots0[k], RotVisits(base, draws, k, Done(k, t)))
    modifies Lists(base)
    ensures forall k :: 0 <= k < |base| ==>
              base[k].loc[..] == VisitAll(locs0[k], LocVisits(base, draws, k, Done(k, t + 1))) &&
              base[k].rot[..] == VisitAll(rots0[k], RotVisits(base, draws, k, Done(k, t + 1)))
  {
    var k0, r := t / Repeats, t % Repeats;
    var p := base[k0];
    VisitsStep(base, draws, t);
    JitterPose(p, draws[k0][r]);
    forall k | 0 <= k < |base| && k != k0
      ensures base[k].loc[..] == old(base[k].loc[..]) && base[k].rot[..] == old(base[k].rot[..])
    {
      assert base[k].loc != p.loc && base[k].loc != p.rot;
      assert base[k].rot != p.loc && base[k].rot != p.rot;
    }
    DoneStep(|base|, t);
  }

  /** Visit t of `cam_poses` is the next visit of base pose t / Repeats. */
  lemma VisitsStep(base: seq<Pose>, draws: CallDraws, t: nat)
    requires DrawsFit(base, draws) && t < Repeats * |base|
    ensures var k0, n := t / Repeats, t % Repeats;
            && k0 < |base| && Done(k0, t) == n && Done(k0, t + 1) == n + 1
            && LocVisits(base, draws, k0, n + 1) == LocVisits(base, draws, k0, n) + [draws[k0][n].loc]
            && RotVisits(base, draws, k0, n + 1) == RotVisits(base, draws, k0, n) + [draws[k0][n].rot]
  {
    var k0, n := t / Repeats, t % Repeats;
    assert t == Repeats * k0 + n;
  }

  /** The other base poses are not visited at step t. */
  lemma DoneStep(size: nat, t: nat)
    ensures forall k :: 0 <= k < size && k != t / Repeats ==> Done(k, t + 1) == Done(k, t)
  {
  }

  // =====================================================================
  // The render loop (lines 215-239)
  // =====================================================================

  /** The passes of the first `m` calls of `generate_additional_poses` that
      reach base pose `k`. */
  function LocModelVisits(base: seq<Pose>, draws: seq<CallDraws>, k: nat, m: nat): (r: seq<seq<real>>)
    requires m <= |draws| && k < |base|
    requires forall i :: 0 <= i < |draws| ==> DrawsFit(base, draws[i])
    ensures FitsAll(base[k].loc.Length, r)
  {
    if m == 0 then [] else
      var r := LocModelVisits(base, draws, k, m - 1) + LocVisits(base, draws[m - 1], k, Repeats);
      VisitAllAppendFits(base[k].loc.Length, LocModelVisits(base, draws, k, m - 1), LocVisits(base, draws[m - 1], k, Repeats));
      r
  }

  function RotModelVisits(base: seq<Pose>, draws: seq<CallDraws>, k: nat, m: nat): (r: seq<seq<real>>)
    requires m <= |draws| && k < |base|
    requires forall i :: 0 <= i < |draws| ==> DrawsFit(base, draws[i])
    ensures FitsAll(base[k].rot.Length, r)
  {
    if m == 0 then [] else
      var r := RotModelVisits(base, draws, k, m - 1) + RotVisits(base, draws[m - 1], k, Repeats);
      VisitAllAppendFits(base[k].rot.Length, RotModelVisits(base, draws, k, m - 1), RotVisits(base, draws[m - 1], k, Repeats));
      r
  }

  lemma VisitAllAppendFits(n: nat, a: seq<seq<real>>, b: seq<seq<real>>)
    requires FitsAll(n, a) && FitsAll(n, b)
    ensures FitsAll(n, a + b)
  {
    assert forall m :: 0 <= m < |a + b| ==> (a + b)[m] == if m < |a| then a[m] else b[m - |a|];
  }

  /** The numbers of the base poses before the loop, and draws that fit them. */
  predicate Start(base: seq<Pose>, draws: seq<CallDraws>, locs0: seq<seq<real>>, rots0: seq<seq<real>>) {
    && (forall i :: 0 <= i < |draws| ==> DrawsFit(base, draws[i]))
    && |locs0| == |rots0| == |base|
    && forall k :: 0 <= k < |base| ==> |locs0[k]| == base[k].loc.Length && |rots0[k]| == base[k].rot.Length
  }

  function LocSnapshot(base: seq<Pose>): (r: seq<seq<real>>)
    reads Lists(base)
    ensures |r| == |base| && forall k :: 0 <= k < |base| ==> r[k] == base[k].loc[..]
  {
    seq(|base|, k requires 0 <= k < |base| reads Lists(base) => base[k].loc[..])
  }

  function RotSnapshot(base: seq<Pose>): (r: seq<seq<real>>)
    reads Lists(base)
    ensures |r| == |base| && forall k :: 0 <= k < |base| ==> r[k] == base[k].rot[..]
  {
    seq(|base|, k requires 0 <= k < |base| reads Lists(base) => base[k].rot[..])
  }

  /** The six numbers of base pose `k` after `m` calls of
      `generate_additional_poses`. */
  function PoseAfter(base: seq<Pose>, draws: seq<CallDraws>, locs0: seq<seq<real>>, rots0: seq<seq<real>>, k: nat, m: nat): seq<real>
    requires Start(base, draws, locs0, rots0) && k < |base| && m <= |draws|
  {
    VisitAll(locs0[k], LocModelVisits(base, draws, k, m)) + VisitAll(rots0[k], RotModelVisits(base, draws, k, m))
  }

  /** The base poses hold their numbers after `m` calls. */
  predicate PosesAfter(base: seq<Pose>, draws: seq<CallDraws>, locs0: seq<seq<real>>, rots0: seq<seq<real>>, m: nat)
    requires Start(base, draws, locs0, rots0) && m <= |draws|
    reads Lists(base)
  {
    forall k :: 0 <= k < |base| ==>
      base[k].loc[..] == VisitAll(locs0[k], LocModelVisits(base, draws, k, m)) &&
      base[k].rot[..] == VisitAll(rots0[k], RotModelVisits(base, draws, k, m))
  }

  /** The texts `cam_pos.txt` holds for the entries of `cam_poses` after
      `m` calls of `generate_additional_poses`: entry t is a copy of base
      pose t / Repeats. */
  ghost function PoseTexts(base: seq<Pose>, draws: seq<CallDraws>, locs0: seq<seq<real>>, rots0: seq<seq<real>>,
                           m: nat, show: real -> string): (texts: seq<string>)
    requires Start(base, draws, locs0, rots0) && m <= |draws|
    ensures |texts| == Repeats * |base|
  {
    seq(Repeats * |base|, t requires 0 <= t < Repeats * |base| =>
      Serialize(PoseAfter(base, draws, locs0, rots0, t / Repeats, m), show))
  }

  /** Entry t of the pose texts is the text of base pose t / Repeats. */
  lemma PoseTextAt(base: seq<Pose>, draws: seq<CallDraws>, locs0: seq<seq<real>>, rots0: seq<seq<real>>,
                   m: nat, show: real -> string, t: nat)
    requires Start(base, draws, locs0, rots0) && m <= |draws| && t < Repeats * |base|
    ensures t / Repeats < |base|
    ensures PoseTexts(base, draws, locs0, rots0, m, show)[t] == Serialize(PoseAfter(base, draws, locs0, rots0, t / Repeats, m), show)
  {
  }

  /** The pose texts of every model: `texts[m]` after the call of
      `generate_additional_poses` for model `m`. */
  ghost function AllTexts(base: seq<Pose>, draws: seq<CallDraws>, locs0: seq<seq<real>>, rots0: seq<seq<real>>,
                          show: real -> string): (texts: seq<seq<string>>)
    requires Start(base, draws, locs0, rots0)
    ensures |texts| == |draws|
    ensures forall m :: 0 <= m < |texts| ==> texts[m] == PoseTexts(base, draws, locs0, rots0, m + 1, show)
  {
    seq(|draws|, m requires 0 <= m < |draws| => PoseTexts(base, draws, locs0, rots0, m + 1, show))
  }

  /** Lines 186 and 215-239 without the Blender runs, the light and the file
      writes: `count` numbers the runs, the runs come in the order of the three
      loops, each run reads the pose text written for it, and the base poses
      are jittered once more by every call of `generate_additional_poses`. */
  method RenderLoop(base: seq<Pose>, draws: seq<CallDraws>, show: real -> string, outputBase: string)
    returns (count: nat, runs: seq<Run>)
    requires Separate(base)
    requires |draws| == DefectModelsAmount && forall i :: 0 <= i < |draws| ==> DrawsFit(base, draws[i])
    modifies Lists(base)
    ensures count == |runs|
    ensures Start(base, draws, old(LocSnapshot(base)), old(RotSnapshot(base)))
    ensures Start(base, draws, old(LocSnapshot(base)), old(RotSnapshot(base))) &&
            ModelsRendered(runs, DefectModelsAmount, outputBase, Repeats * |base|,
                           AllTexts(base, draws, old(LocSnapshot(base)), old(RotSnapshot(base)), show))
    ensures Start(base, draws, old(LocSnapshot(base)), old(RotSnapshot(base))) &&
            PosesAfter(base, draws, old(LocSnapshot(base)), old(RotSnapshot(base)), DefectModelsAmount)
  {
    ghost var locs0, rots0 := LocSnapshot(base), RotSnapshot(base);
    count, runs := RenderModels(base, draws, show, outputBase, locs0, rots0, AllTexts(base, draws, locs0, rots0, show));
  }

  /** The loop of `RenderLoop`, stated against the snapshots taken before it. */
  method RenderModels(base: seq<Pose>, draws: seq<CallDraws>, show: real -> string, outputBase: string,
                      ghost locs0: seq<seq<real>>, ghost rots0: seq<seq<real>>, ghost texts: seq<seq<string>>)
    returns (count: nat, runs: seq<Run>)
    requires Separate(base) && |draws| == DefectModelsAmount && Start(base, draws, locs0, rots0)
    requires texts == AllTexts(base, draws, locs0, rots0, show)
    requires PosesAfter(base, draws, locs0, rots0, 0)
    modifies Lists(base)
    ensures count == |runs|
    ensures ModelsRendered(runs, DefectModelsAmount, outputBase, Repeats * |base|, texts)
    ensures PosesAfter(base, draws, locs0, rots0, DefectModelsAmount)
  {
    count := 0;
    runs := [];
    var poseCount := Repeats * |base|;
    for i := 0 to DefectModelsAmount
      invariant count == |runs|
      invariant ModelsRendered(runs, i, outputBase, poseCount, texts)
      invariant PosesAfter(base, draws, locs0, rots0, i)
    {
      count, runs := RenderModel(base, draws, show, outputBase, locs0, rots0, texts, i, runs);
    }
  }

  /** What the run loop promises each run: run `c` reads the text of the base
      pose its entry of `cam_poses` copies, as jittered by the calls of
      `generate_additional_poses` up to and including that of its model. */
  lemma RunReadsPose(base: seq<Pose>, draws: seq<CallDraws>, locs0: seq<seq<real>>, rots0: seq<seq<real>>,
                     show: real -> string, runs: seq<Run>, m: nat, outputBase: string, c: nat)
    requires Start(base, draws, locs0, rots0)
    requires ModelsRendered(runs, m, outputBase, Repeats * |base|, AllTexts(base, draws, locs0, rots0, show))
    requires c < |runs|
    ensures runs[c].model < |draws| && runs[c].pose / Repeats < |base|
    ensures runs[c].camPosText == Serialize(PoseAfter(base, draws, locs0, rots0, runs[c].pose / Repeats, runs[c].model + 1), show)
  {
    var texts := AllTexts(base, draws, locs0, rots0, show);
    var r := runs[c];
    assert r.model < |texts| && r.pose < |texts[r.model]| && r.camPosText == texts[r.model][r.pose];
    assert texts[r.model] == PoseTexts(base, draws, locs0, rots0, r.model + 1, show);
    PoseTextAt(base, draws, locs0, rots0, r.model + 1, show, r.pose);
  }

  /** One iteration of the outer loop of `RenderLoop`: the runs of model `i`
      follow those of the models before it, and the base poses move on by one
      call of `generate_additional_poses`. */
  method RenderModel(base: seq<Pose>, draws: seq<CallDraws>, show: real -> string, outputBase: string,
                     ghost locs0: seq<seq<real>>, ghost rots0: seq<seq<real>>, ghost texts: seq<seq<string>>,
                     i: nat, runs0: seq<Run>)
    returns (count: nat, runs: seq<Run>)
    requires Separate(base) && Start(base, draws, locs0, rots0) && i < |draws|
    requires texts == AllTexts(base, draws, locs0, rots0, show)
    requires ModelsRendered(runs0, i, outputBase, Repeats * |base|, texts)
    requires PosesAfter(base, draws, locs0, rots0, i)
    modifies Lists(base)
    ensures count == |runs|
    ensures ModelsRendered(runs, i + 1, outputBase, Repeats * |base|, texts)
    ensures PosesAfter(base, draws, locs0, rots0, i + 1)
  {
    var modelRuns;
    count, modelRuns := ModelIteration(base, draws, show, outputBase, locs0, rots0, i, |runs0|);
    assert texts[i] == PoseTexts(base, draws, locs0, rots0, i + 1, show);
    ModelsStep(runs0, modelRuns, i, outputBase, Repeats * |base|, texts);
    runs := runs0 + modelRuns;
  }

  /** One iteration of the outer loop of `RenderLoop`: the runs of one
      defect model, numbered on from `count0`. */
  method ModelIteration(base: seq<Pose>, draws: seq<CallDraws>, show: real -> string, outputBase: string,
                        ghost locs0: seq<seq<real>>, ghost rots0: seq<seq<real>>, i: nat, count0: nat)
    returns (count: nat, runs: seq<Run>)
    requires Separate(base) && Start(base, draws, locs0, rots0) && i < |draws|
    requires PosesAfter(base, draws, locs0, rots0, i)
    modifies Lists(base)
    ensures count == count0 + |runs|
    ensures PosesRendered(runs, Repeats * |base|, i, count0, outputBase, PoseTexts(base, draws, locs0, rots0, i + 1, show))
    ensures PosesAfter(base, draws, locs0, rots0, i + 1)
  {
    ghost var texts := PoseTexts(base, draws, locs0, rots0, i + 1, show);
    var camPoses := NextPoses(base, draws, show, locs0, rots0, i);
    count, runs := RenderPoses(camPoses, show, outputBase, texts, i, count0);
    assert PosesRendered(runs, Repeats * |base|, i, count0, outputBase, texts);
  }

  /** Line 223: the call of `generate_additional_poses` for model `i`, after
      which every entry of `cam_poses` serializes to the text of its base pose
      as jittered by calls 0 to `i`. */
  method NextPoses(base: seq<Pose>, draws: seq<CallDraws>, show: real -> string,
                   ghost locs0: seq<seq<real>>, ghost rots0: seq<seq<real>>, i: nat)
    returns (camPoses: seq<Pose>)
    requires Separate(base) && Start(base, draws, locs0, rots0) && i < |draws|
    requires PosesAfter(base, draws, locs0, rots0, i)
    modifies Lists(base)
    ensures |camPoses| == |PoseTexts(base, draws, locs0, rots0, i + 1, show)|
    ensures forall t :: 0 <= t < |camPoses| ==>
              Serialize(camPoses[t].loc[..] + camPoses[t].rot[..], show) == PoseTexts(base, draws, locs0, rots0, i + 1, show)[t]
    ensures PosesAfter(base, draws, locs0, rots0, i + 1)
  {
    ghost var mids := seq(|base|, k requires 0 <= k < |base| => VisitAll(locs0[k], LocModelVisits(base, draws, k, i)));
    ghost var midr := seq(|base|, k requires 0 <= k < |base| => VisitAll(rots0[k], RotModelVisits(base, draws, k, i)));
    assert forall k :: 0 <= k < |base| ==> base[k].loc[..] == mids[k] && base[k].rot[..] == midr[k];
    camPoses := GenerateAdditionalPoses(base, draws[i]);
    NextModel(base, draws, locs0, rots0, mids, midr, i);
    CamPosesTexts(base, camPoses, draws, locs0, rots0, i, show);
  }

  /** Every entry of `cam_poses` serializes to the text of its base pose. */
  lemma CamPosesTexts(base: seq<Pose>, camPoses: seq<Pose>, draws: seq<CallDraws>,
                      locs0: seq<seq<real>>, rots0: seq<seq<real>>, i: nat, show: real -> string)
    requires Start(base, draws, locs0, rots0) && i < |draws|
    requires PosesAfter(base, draws, locs0, rots0, i + 1)
    requires |camPoses| == Repeats * |base| && forall t :: 0 <= t < |camPoses| ==> camPoses[t] == base[t / Repeats]
    ensures forall t :: 0 <= t < |camPoses| ==>
              Serialize(camPoses[t].loc[..] + camPoses[t].rot[..], show) == PoseTexts(base, draws, locs0, rots0, i + 1, show)[t]
  {
    var texts := PoseTexts(base, draws, locs0, rots0, i + 1, show);
    forall t | 0 <= t < |camPoses|
      ensures Serialize(camPoses[t].loc[..] + camPoses[t].rot[..], show) == texts[t]
    {
      var k := t / Repeats;
      PoseTextAt(base, draws, locs0, rots0, i + 1, show, t);
      assert camPoses[t] == base[k];
    }
  }

  /** The loops over `cam_poses` and the images of one defect model: each run
      reads the text its entry of `cam_poses` serializes to. */
  method RenderPoses(camPoses: seq<Pose>, show: real -> string, outputBase: string, ghost texts: seq<string>,
                     i: nat, count0: nat)
    returns (count: nat, runs: seq<Run>)
    requires |texts| == |camPoses|
    requires forall t :: 0 <= t < |camPoses| ==> Serialize(camPoses[t].loc[..] + camPoses[t].rot[..], show) == texts[t]
    ensures count == count0 + |runs|
    ensures PosesRendered(runs, |camPoses|, i, count0, outputBase, texts)
  {
    count, runs := count0, [];
    for t := 0 to |camPoses|
      invariant count == count0 + |runs|
      invariant PosesRendered(runs, t, i, count0, outputBase, texts)
    {
      var text := CamPosWriter(camPoses[t], show);
      var poseRuns;
      count, poseRuns := PoseRuns(i, t, text, outputBase, count);
      PosesStep(runs, poseRuns, t, i, count0, text, outputBase, texts);
      runs := runs + poseRuns;
    }
  }

  /** The base poses after one more call of `generate_additional_poses`. */
  lemma NextModel(base: seq<Pose>, draws: seq<CallDraws>, locs0: seq<seq<real>>, rots0: seq<seq<real>>,
                  mids: seq<seq<real>>, midr: seq<seq<real>>, i: nat)
    requires Start(base, draws, locs0, rots0) && i < |draws| && |mids| == |midr| == |base|
    requires forall k :: 0 <= k < |base| ==> |mids[k]| == base[k].loc.Length && |midr[k]| == base[k].rot.Length
    requires forall k :: 0 <= k < |base| ==>
               mids[k] == VisitAll(locs0[k], LocModelVisits(base, draws, k, i)) &&
               midr[k] == VisitAll(rots0[k], RotModelVisits(base, draws, k, i))
    requires forall k :: 0 <= k < |base| ==>
               base[k].loc[..] == VisitAll(mids[k], LocVisits(base, draws[i], k, Repeats)) &&
               base[k].rot[..] == VisitAll(midr[k], RotVisits(base, draws[i], k, Repeats))
    ensures PosesAfter(base, draws, locs0, rots0, i + 1)
  {
    forall k | 0 <= k < |base|
      ensures base[k].loc[..] == VisitAll(locs0[k], LocModelVisits(base, draws, k, i + 1))
      ensures base[k].rot[..] == VisitAll(rots0[k], RotModelVisits(base, draws, k, i + 1))
    {
      NextModelAt(base, draws, locs0, rots0, mids[k], midr[k], i, k, base[k].loc[..], base[k].rot[..]);
    }
  }

  /** `NextModel` for base pose `k`. */
  lemma NextModelAt(base: seq<Pose>, draws: seq<CallDraws>, locs0: seq<seq<real>>, rots0: seq<seq<real>>,
                    mid: seq<real>, mir: seq<real>, i: nat, k: nat, loc: seq<real>, rot: seq<real>)
    requires Start(base, draws, locs0, rots0) && i < |draws| && k < |base|
    requires |mid| == base[k].loc.Length && |mir| == base[k].rot.Length
    requires mid == VisitAll(locs0[k], LocModelVisits(base, draws, k, i))
    requires mir == VisitAll(rots0[k], RotModelVisits(base, draws, k, i))
    requires loc == VisitAll(mid, LocVisits(base, draws[i], k, Repeats))
    requires rot == VisitAll(mir, RotVisits(base, draws[i], k, Repeats))
    ensures loc == VisitAll(locs0[k], LocModelVisits(base, draws, k, i + 1))
    ensures rot == VisitAll(rots0[k], RotModelVisits(base, draws, k, i + 1))
  {
    VisitAllAppend(locs0[k], LocModelVisits(base, draws, k, i), LocVisits(base, draws[i], k, Repeats));
    VisitAllAppend(rots0[k], RotModelVisits(base, draws, k, i), RotVisits(base, draws[i], k, Repeats));
  }

}
