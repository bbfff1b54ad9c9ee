/** The defect generator run inside Blender: choose evenly spaced vertices of
    the part, and at each one shape a tool object, carve it out of the part
    and keep the carved-out piece as a separate, labelled fragment.

    Geometry is not modelled. An object is its location, its modifier stack, the
    history of operations baked into its mesh and its custom properties; a
    boolean operation is recorded with what it saw of the tool (placement and
    modifier stack) when it was applied. */
module GenerateDefects {
  import opened Wrappers
  import opened Draws

  const DefectsPerPart: nat := 101
  const BlowholeId: int := 2

  // parameters of the cloud noise texture that displaces the tool
  const CloudMinNoiseStr: real := -0.8
  const CloudMaxNoiseStr: real := 0.8
  const CloudMinNoiseScale: real := 2.0
  const CloudMaxNoiseScale: real := 10.0
  const CloudMinNoiseDepth: real := 0.0
  const CloudMaxNoiseDepth: real := 20.0

  /** The tool sinks below the surface by a draw in [0, 0.3). */
  const MaxToolOffset: real := 0.3
  /** Default `tar_thickness` of `make_solid`. */
  const DefaultThickness: real := 0.01

  const SolidName: string := "Solid"
  const DisplaceName: string := "Displace"
  const CategoryKey: string := "category_id"

  // =====================================================================
  // Defect-site selection (select_defect_verts)
  // =====================================================================

  /** `int(V / (1.3 * N))` with 1.3 read as 13/10: the floor of 10V / 13N. */
  function Step(vertexCount: nat, numberOfDefects: nat): (step: nat)
    requires numberOfDefects > 0
    ensures 13 * numberOfDefects * step <= 10 * vertexCount
    ensures 10 * vertexCount < 13 * numberOfDefects * (step + 1)
  {
    (10 * vertexCount) / (13 * numberOfDefects)
  }

  /** The loop guard `v + step < (1/1.3) * V`, cleared of fractions. */
  predicate Continues(v: int, step: nat, vertexCount: nat) {
    13 * (v + step) < 10 * vertexCount
  }

  /** The k-th index the loop would reach from `start`. */
  function RunIndex(start: nat, step: nat, k: nat): nat {
    start + k * step
  }

  /** `s` is exactly what the loop emits from `start`: the run
      start, start+step, ... whose members all pass the guard, ending at the
      first index that fails it. */
  predicate IsRun(s: seq<nat>, start: nat, step: nat, vertexCount: nat) {
    (forall i :: 0 <= i < |s| ==> s[i] == RunIndex(start, step, i)) &&
    (forall i :: 0 <= i < |s| ==> Continues(s[i], step, vertexCount)) &&
    !Continues(RunIndex(start, step, |s|), step, vertexCount)
  }

  /** The loop stops: some index it reaches fails the guard. */
  ghost predicate Terminates(start: nat, step: nat, vertexCount: nat) {
    exists k: nat :: !Continues(RunIndex(start, step, k), step, vertexCount)
  }

  datatype Selection =
    | Selected(indices: seq<nat>)
    | ZeroDivision       // N = 0: `1.3 * number_of_defects` is zero
    | NeverTerminates    // step 0 and the guard holds: the loop appends `start` forever

  lemma AtLeast(a: nat, b: nat)
    requires b >= 1
    ensures a * b >= a
  {
  }

  /** The loop stops exactly when the step is positive or the first guard
      already fails. */
  lemma TerminatesIff(start: nat, step: nat, vertexCount: nat)
    ensures Terminates(start, step, vertexCount) <==>
            (step > 0 || !Continues(start, step, vertexCount))
  {
    if step > 0 {
      AtLeast(vertexCount, step);
      assert !Continues(RunIndex(start, step, vertexCount), step, vertexCount);
    } else if !Continues(start, step, vertexCount) {
      assert !Continues(RunIndex(start, step, 0), step, vertexCount);
    } else {
      forall k: nat ensures Continues(RunIndex(start, step, k), step, vertexCount) {
        assert RunIndex(start, step, k) == start;
      }
    }
  }

  /** With a valid start draw, the loop runs forever exactly when there are
      vertices but fewer than 1.3 N of them (then step = 0 and start = 0). */
  lemma NonTerminationWindow(vertexCount: nat, numberOfDefects: nat, start: nat)
    requires numberOfDefects > 0 && start <= Step(vertexCount, numberOfDefects)
    ensures !Terminates(start, Step(vertexCount, numberOfDefects), vertexCount) <==>
            0 < vertexCount && 10 * vertexCount < 13 * numberOfDefects
  {
    var step := Step(vertexCount, numberOfDefects);
    TerminatesIff(start, step, vertexCount);
    if step > 0 {
      AtLeast(13 * numberOfDefects, step);
    }
  }

  /** `select_defect_verts(mo_vertices, number_of_defects)` for a mesh of
      `vertexCount` vertices, where `startDraw` is the value of
      `random.randint(0, step_size)`. */
  method SelectDefectVerts(vertexCount: nat, numberOfDefects: nat, startDraw: nat) returns (r: Selection)
    requires numberOfDefects > 0 ==> startDraw <= Step(vertexCount, numberOfDefects)
    ensures r.ZeroDivision? <==> numberOfDefects == 0
    ensures r.NeverTerminates? <==>
            numberOfDefects > 0 && !Terminates(startDraw, Step(vertexCount, numberOfDefects), vertexCount)
    ensures r.Selected? ==> IsRun(r.indices, startDraw, Step(vertexCount, numberOfDefects), vertexCount)
  {
    if numberOfDefects == 0 {
      return ZeroDivision;
    }
    var step := Step(vertexCount, numberOfDefects);
    TerminatesIff(startDraw, step, vertexCount);
    if step == 0 && Continues(startDraw, step, vertexCount) {
      return NeverTerminates;
    }
    var v := startDraw;
    var indices: seq<nat> := [];
    while Continues(v, step, vertexCount)
      invariant v == RunIndex(startDraw, step, |indices|)
      invariant forall i :: 0 <= i < |indices| ==> indices[i] == RunIndex(startDraw, step, i)
      invariant forall i :: 0 <= i < |indices| ==> Continues(indices[i], step, vertexCount)
      invariant step == 0 ==> !Continues(v, step, vertexCount)
      decreases 10 * vertexCount - 13 * v
    {
      RunIndexStep(startDraw, step, |indices|);
      indices := indices + [v];
      v := v + step;
    }
    return Selected(indices);
  }

  lemma RunIndexStep(start: nat, step: nat, k: nat)
    ensures RunIndex(start, step, k + 1) == RunIndex(start, step, k) + step
  {
    assert (k + 1) * step == k * step + step;
  }

  /** What the emitted run guarantees: it starts at the draw, successive
      indices are exactly `step` apart (strictly increasing when step > 0),
      every index leaves room for one more step below V/1.3 and so is a valid
      vertex index, and no vertices means no indices. */
  lemma {:induction false} RunProperties(s: seq<nat>, start: nat, step: nat, vertexCount: nat)
    requires IsRun(s, start, step, vertexCount)
    ensures |s| > 0 ==> s[0] == start
    ensures forall i :: 0 < i < |s| ==> s[i] == s[i - 1] + step
    ensures step > 0 ==> forall i, j :: 0 <= i < j < |s| ==> s[i] < s[j]
    ensures forall i :: 0 <= i < |s| ==> s[i] + step < vertexCount
    ensures vertexCount == 0 ==> s == []
  {
    forall i | 0 < i < |s| ensures s[i] == s[i - 1] + step {
      assert RunIndex(start, step, i) == RunIndex(start, step, i - 1) + step;
    }
    if step > 0 {
      forall i, j | 0 <= i < j < |s| ensures s[i] < s[j] {
        assert RunIndex(start, step, j) == RunIndex(start, step, i) + (j - i) * step;
        AtLeast(j - i, step);
      }
    }
  }

  lemma RunCovers(t: seq<nat>, start: nat, step: nat, vertexCount: nat, k: nat)
    requires IsRun(t, start, step, vertexCount)
    ensures k < |t| ==> Continues(RunIndex(start, step, k), step, vertexCount)
  {
    if k < |t| {
      assert t[k] == RunIndex(start, step, k);
    }
  }

  /** The guard pins the run down: two runs from the same start are equal. */
  lemma {:induction false} RunUnique(s: seq<nat>, t: seq<nat>, start: nat, step: nat, vertexCount: nat)
    requires IsRun(s, start, step, vertexCount) && IsRun(t, start, step, vertexCount)
    ensures s == t
  {
    RunCovers(t, start, step, vertexCount, |s|);
    RunCovers(s, start, step, vertexCount, |t|);
    assert |s| == |t|;
  }

  /** The worked example V = 1300, N = 101: step 9, and
      (990 - start) div 9 + 1 indices, i.e. 111 from start 0 and 110 otherwise. */
  lemma ExampleRunLength(s: seq<nat>, start: nat)
    requires start <= Step(1300, 101)
    requires IsRun(s, start, Step(1300, 101), 1300)
    ensures Step(1300, 101) == 9
    ensures |s| == (990 - start) / 9 + 1
  {
    ExampleStep();
    ExampleRunIsRun(start);
    RunUnique(s, ExampleRun(start), start, 9, 1300);
  }

  lemma ExampleStep()
    ensures Step(1300, 101) == 9
  {
    assert 13 * 101 * 9 <= 10 * 1300 < 13 * 101 * 10;
  }

  /** The run the example emits from `start`, written out. */
  function ExampleRun(start: nat): (t: seq<nat>)
    requires start <= 9
    ensures |t| == (990 - start) / 9 + 1
  {
    seq((990 - start) / 9 + 1, i requires 0 <= i => RunIndex(start, 9, i))
  }

  lemma ExampleRunIsRun(start: nat)
    requires start <= 9
    ensures IsRun(ExampleRun(start), start, 9, 1300)
  {
    var t := ExampleRun(start);
    var q := (990 - start) / 9;
    assert 9 * q <= 990 - start < 9 * q + 9;
    forall i | 0 <= i < |t| ensures Continues(t[i], 9, 1300) {
      assert 9 * i <= 990 - start;
    }
    assert !Continues(RunIndex(start, 9, |t|), 9, 1300);
  }

  // =====================================================================
  // Scene objects as values
  // =====================================================================

  datatype Vec3 = Vec3(x: real, y: real, z: real)

  function Minus(a: Vec3, b: Vec3): Vec3 {
    Vec3(a.x - b.x, a.y - b.y, a.z - b.z)
  }

  function Times(k: real, a: Vec3): Vec3 {
    Vec3(k * a.x, k * a.y, k * a.z)
  }

  /** A mesh vertex: position `co` and outward normal. */
  datatype Vertex = Vertex(co: Vec3, normal: Vec3)

  datatype BoolOp = Difference | Intersect

  datatype ModifierKind =
    | Displace(strength: real, noiseDepth: int, noiseScale: real)
    | Solidify(thickness: real)
    | Boolean(operation: BoolOp)
    | OtherKind(typeName: string)

  datatype Modifier = Modifier(name: string, kind: ModifierKind)

  /** What a boolean modifier sees of its operand object when it is applied. */
  datatype ToolShape = ToolShape(location: Vec3, modifiers: seq<Modifier>)

  /** An operation baked into an object's mesh by `modifier_apply`. */
  datatype GeomOp = BooleanApplied(operation: BoolOp, tool: ToolShape)

  datatype ObjState = ObjState(location: Vec3, modifiers: seq<Modifier>,
                               history: seq<GeomOp>, props: map<string, int>)

  function Names(mods: seq<Modifier>): seq<string> {
    seq(|mods|, i requires 0 <= i < |mods| => mods[i].name)
  }

  /** How many modifiers of the stack carry the name "Solid". */
  function SolidCount(mods: seq<Modifier>): nat {
    multiset(Names(mods))[SolidName]
  }

  /** `modifiers[name]`: the position of the first modifier with that name. */
  function FirstNamed(mods: seq<Modifier>, name: string): (r: Option<nat>)
    ensures r.None? <==> forall i :: 0 <= i < |mods| ==> mods[i].name != name
    ensures r.Some? ==> r.value < |mods| && mods[r.value].name == name &&
                        forall i :: 0 <= i < r.value ==> mods[i].name != name
    decreases |mods|
  {
    if mods == [] then None
    else if mods[0].name == name then Some(0)
    else match FirstNamed(mods[1..], name)
      case None => None
      case Some(i) => Some(i + 1)
  }

  lemma NamesAppend(mods: seq<Modifier>, m: Modifier)
    ensures Names(mods + [m]) == Names(mods) + [m.name]
  {
  }

  lemma NoneNamed(mods: seq<Modifier>, name: string)
    requires forall i :: 0 <= i < |mods| ==> mods[i].name != name
    ensures multiset(Names(mods))[name] == 0
  {
    assert name !in Names(mods);
  }

  /** A "Solid" modifier added to a stack without one is its only and first "Solid". */
  lemma AppendFirstSolid(mods: seq<Modifier>, m: Modifier)
    requires FirstNamed(mods, SolidName).None? && m.name == SolidName
    ensures SolidCount(mods + [m]) == 1 && SolidCount(mods) == 0
    ensures FirstNamed(mods + [m], SolidName) == Some(|mods|)
  {
    NamesAppend(mods, m);
    NoneNamed(mods, SolidName);
    var ms := mods + [m];
    assert forall i :: 0 <= i < |mods| ==> ms[i].name != SolidName;
    assert ms[|mods|].name == SolidName;
  }

  /** `change_thickness(target, thickness)`: set the thickness of the modifier
      named "Solid". None when there is none (KeyError) or when it is not a
      solidify modifier (AttributeError). */
  function ChangeThicknessState(s: ObjState, thickness: real): (r: Option<ObjState>)
    ensures r.Some? <==> FirstNamed(s.modifiers, SolidName).Some? &&
                         s.modifiers[FirstNamed(s.modifiers, SolidName).value].kind.Solidify?
    ensures r.Some? ==> r.value.location == s.location && r.value.history == s.history &&
                        r.value.props == s.props && |r.value.modifiers| == |s.modifiers|
    ensures r.Some? ==> forall i :: 0 <= i < |s.modifiers| ==>
              r.value.modifiers[i] == (if i == FirstNamed(s.modifiers, SolidName).value
                                       then Modifier(SolidName, Solidify(thickness))
                                       else s.modifiers[i])
  {
    match FirstNamed(s.modifiers, SolidName)
    case None => None
    case Some(i) =>
      if s.modifiers[i].kind.Solidify?
      then Some(s.(modifiers := s.modifiers[i := Modifier(SolidName, Solidify(thickness))]))
      else None
  }

  /** `make_solid(ref, tar_thickness)`: update the existing "Solid" modifier or
      add a new one; never a second one. */
  function MakeSolidState(s: ObjState, thickness: real): (r: Option<ObjState>)
    ensures r.None? <==> FirstNamed(s.modifiers, SolidName).Some? &&
                         !s.modifiers[FirstNamed(s.modifiers, SolidName).value].kind.Solidify?
    ensures r.Some? ==> r.value.location == s.location && r.value.history == s.history &&
                        r.value.props == s.props
    ensures r.Some? ==> SolidCount(r.value.modifiers) ==
                        (if SolidCount(s.modifiers) == 0 then 1 else SolidCount(s.modifiers))
    ensures r.Some? ==> var k := FirstNamed(r.value.modifiers, SolidName);
                        k.Some? && r.value.modifiers[k.value] == Modifier(SolidName, Solidify(thickness))
    ensures r.Some? ==> forall i :: 0 <= i < |s.modifiers| && s.modifiers[i].name != SolidName ==>
                        i < |r.value.modifiers| && r.value.modifiers[i] == s.modifiers[i]
    ensures r.Some? ==> |r.value.modifiers| ==
                        |s.modifiers| + (if FirstNamed(s.modifiers, SolidName).None? then 1 else 0)
  {
    match FirstNamed(s.modifiers, SolidName)
    case None =>
      var m := Modifier(SolidName, Solidify(thickness));
      AppendFirstSolid(s.modifiers, m);
      Some(s.(modifiers := s.modifiers + [m]))
    case Some(i) =>
      var r := ChangeThicknessState(s, thickness);
      if r.Some? then
        assert Names(r.value.modifiers) == Names(s.modifiers);
        assert SolidName in Names(s.modifiers) by { assert Names(s.modifiers)[i] == SolidName; }
        assert FirstNamed(r.value.modifiers, SolidName) == Some(i);
        r
      else r
  }

  /** The random draws of one `create_defect` call, as unit values. */
  datatype DefectDraws = DefectDraws(offset: real, strength: real, depth: real, scale: real)

  predicate DrawsInRange(d: DefectDraws) {
    IsUnit(d.offset) && IsUnit(d.strength) && IsUnit(d.depth) && IsUnit(d.scale)
  }

  /** The displace modifier `add_noisy_displacement` adds for these draws:
      strength in [-0.8, 0.8], depth `int(uniform(0, 20))`, scale in [2, 10]. */
  function DisplaceFor(d: DefectDraws): (m: Modifier)
    requires DrawsInRange(d)
    ensures m.name == DisplaceName && m.kind.Displace?
    ensures CloudMinNoiseStr <= m.kind.strength <= CloudMaxNoiseStr
    ensures 0 <= m.kind.noiseDepth < 20
    ensures CloudMinNoiseScale <= m.kind.noiseScale <= CloudMaxNoiseScale
  {
    var depth := Uniform(CloudMinNoiseDepth, CloudMaxNoiseDepth, d.depth);
    Modifier(DisplaceName, Displace(Uniform(CloudMinNoiseStr, CloudMaxNoiseStr, d.strength),
                                    depth.Floor,
                                    Uniform(CloudMinNoiseScale, CloudMaxNoiseScale, d.scale)))
  }

  /** `vert.co - random.uniform(0, 0.3) * vert.normal`. */
  function ToolLocation(vert: Vertex, d: DefectDraws): Vec3
    requires DrawsInRange(d)
  {
    Minus(vert.co, Times(Uniform(0.0, MaxToolOffset, d.offset), vert.normal))
  }

  /** Adding a boolean modifier on `target` against `tool` and applying it at
      once: the modifier leaves the stack and the operation enters the mesh
      history. */
  function ApplyBooleanState(target: ObjState, op: BoolOp, tool: ObjState): ObjState {
    target.(history := target.history + [BooleanApplied(op, ToolShape(tool.location, tool.modifiers))])
  }

  datatype DefectResult = DefectResult(main: ObjState, tool: ObjState, fragment: ObjState, completed: bool)

  /** `create_defect` on states: locate the tool, add the displacement, copy
      the part, tag the copy, carve the part, solidify the tool, intersect the
      copy, clear the tool. `completed` is false when `make_solid` raises; the
      part is then already carved and the copy not yet intersected. */
  function CreateDefectState(main: ObjState, tool: ObjState, vert: Vertex,
                             d: DefectDraws, categoryId: int): DefectResult
    requires DrawsInRange(d)
  {
    var located := tool.(location := ToolLocation(vert, d));
    var displaced := located.(modifiers := located.modifiers + [DisplaceFor(d)]);
    var tagged := main.(props := main.props[CategoryKey := categoryId]);
    var carved := ApplyBooleanState(main, Difference, displaced);
    match MakeSolidState(displaced, DefaultThickness)
    case None => DefectResult(carved, displaced, tagged, false)
    case Some(solid) =>
      DefectResult(carved, solid.(modifiers := []), ApplyBooleanState(tagged, Intersect, solid), true)
  }

  /** A stack without "Solid" keeps none when the displacement is added. */
  lemma NoSolidWithDisplace(mods: seq<Modifier>, d: DefectDraws)
    requires DrawsInRange(d) && SolidCount(mods) == 0
    ensures SolidCount(mods + [DisplaceFor(d)]) == 0
    ensures FirstNamed(mods + [DisplaceFor(d)], SolidName).None?
  {
    NamesAppend(mods, DisplaceFor(d));
    assert SolidName !in Names(mods);
    forall i | 0 <= i < |mods| ensures mods[i].name != SolidName {
      assert Names(mods)[i] == mods[i].name;
    }
  }

  /** What one defect does. The part gains exactly one DIFFERENCE and nothing
      else changes on it; the fragment is the part as it was before the carve,
      tagged with the category id, then one INTERSECT; both operations see the
      tool at the same place with the same displacement, and the intersection
      sees it with a "Solid" shell as well; the tool ends with an empty
      modifier stack. A tool that starts without a "Solid" modifier never makes
      the step fail, and then the carve sees no shell and the intersection
      exactly one, of the default thickness. */
  lemma CreateDefectEffects(main: ObjState, tool: ObjState, vert: Vertex, d: DefectDraws, categoryId: int)
    requires DrawsInRange(d)
    ensures var r := CreateDefectState(main, tool, vert, d, categoryId);
            var shape := ToolShape(ToolLocation(vert, d), tool.modifiers + [DisplaceFor(d)]);
            && r.main == main.(history := main.history + [BooleanApplied(Difference, shape)])
            && r.fragment.props == main.props[CategoryKey := categoryId]
            && r.fragment.location == main.location && r.fragment.modifiers == main.modifiers
            && (!r.completed ==> r.fragment.history == main.history)
            && (r.completed ==>
                  && r.tool.modifiers == [] && r.tool.location == shape.location
                  && |r.fragment.history| == |main.history| + 1
                  && r.fragment.history[..|main.history|] == main.history
                  && r.fragment.history[|main.history|].operation == Intersect
                  && r.fragment.history[|main.history|].tool.location == shape.location
                  && SolidCount(r.fragment.history[|main.history|].tool.modifiers) >= 1)
  {
    var shape := ToolShape(ToolLocation(vert, d), tool.modifiers + [DisplaceFor(d)]);
    var r := CreateDefectState(main, tool, vert, d, categoryId);
    if r.completed {
      assert r.fragment.history[..|main.history|] == main.history;
    }
  }

  /** The case of every defect after the first: the tool arrives with no
      "Solid" modifier, so the carve sees no shell and the intersection sees
      the displaced tool plus exactly one shell of the default thickness. */
  lemma CreateDefectFreshTool(main: ObjState, tool: ObjState, vert: Vertex, d: DefectDraws, categoryId: int)
    requires DrawsInRange(d) && SolidCount(tool.modifiers) == 0
    ensures var r := CreateDefectState(main, tool, vert, d, categoryId);
            var shape := ToolShape(ToolLocation(vert, d), tool.modifiers + [DisplaceFor(d)]);
            && r.completed
            && SolidCount(shape.modifiers) == 0
            && r.fragment.history == main.history +
                 [BooleanApplied(Intersect, shape.(modifiers := shape.modifiers +
                                   [Modifier(SolidName, Solidify(DefaultThickness))]))]
  {
    NoSolidWithDisplace(tool.modifiers, d);
  }

  // =====================================================================
  // Scene objects in the heap
  // =====================================================================

  /** A Blender object whose fields the script updates in place. */
  class SceneObject {
    var location: Vec3
    var modifiers: seq<Modifier>
    var history: seq<GeomOp>
    var props: map<string, int>

    function State(): ObjState
      reads this
    {
      ObjState(location, modifiers, history, props)
    }

    /** `to_copy.copy()` together with `data.copy()`: a new object with the
        same placement, modifiers, custom properties and mesh. */
    constructor Copy(s: ObjState)
      ensures State() == s
    {
      location, modifiers, history, props := s.location, s.modifiers, s.history, s.props;
    }
  }

  /** The scene's collections: the objects linked into each, by name. */
  class Scene {
    var collections: map<string, seq<SceneObject>>
    var activeCollection: string

    predicate Valid()
      reads this
    {
      activeCollection in collections
    }
  }

  /** The `col` argument of `copy_object`: none (the active collection), a
      collection name, or a collection object (known here by its name). */
  datatype CollectionArg = ActiveCollection | CollectionName(name: string) | CollectionHandle(name: string)

  /** What `col_ref` holds after lines 42-50 of `copy_object`. */
  datatype CollectionRef = CollectionObject(name: string) | PlainString(text: string)

  /** `col_ref` as written: for a name that already exists the string itself
      is kept, not the collection it names. */
  function ResolveCollectionAsWritten(existing: set<string>, active: string, col: CollectionArg): CollectionRef {
    match col
    case ActiveCollection => CollectionObject(active)
    case CollectionName(n) => if n in existing then PlainString(n) else CollectionObject(n)
    case CollectionHandle(n) => CollectionObject(n)
  }

  /** `col_ref.objects.link(new_obj)`: only a collection object has `objects`;
      on a string it raises AttributeError (None). */
  function LinkTarget(ref: CollectionRef): Option<string> {
    match ref
    case CollectionObject(n) => Some(n)
    case PlainString(_) => None
  }

  /** As written, copying into a collection named by an existing name always
      fails. */
  lemma CopyIntoExistingNameFails(existing: set<string>, active: string, n: string)
    requires n in existing
    ensures LinkTarget(ResolveCollectionAsWritten(existing, active, CollectionName(n))).None?
    ensures ResolveCollection(existing, active, CollectionName(n)) == n
  {
  }

  /** The collection `copy_object` links into, as intended: the active
      collection, or the one the name or object designates (created when the
      name is new). It never fails. */
  function ResolveCollection(existing: set<string>, active: string, col: CollectionArg): (r: string)
    ensures LinkTarget(ResolveCollectionAsWritten(existing, active, col)).Some? ==>
            r == LinkTarget(ResolveCollectionAsWritten(existing, active, col)).value
    ensures col.ActiveCollection? ==> r == active
    ensures !col.ActiveCollection? ==> r == col.name
  {
    match col
    case ActiveCollection => active
    case CollectionName(n) => n
    case CollectionHandle(n) => n
  }

  /** `copy_object(tocopy, col)`: a new object equal to `toCopy`, appended to
      the collection `col` resolves to (which is created when it is a new name). */
  method CopyObject(scene: Scene, toCopy: SceneObject, col: CollectionArg) returns (copy: SceneObject)
    requires scene.Valid()
    requires col.CollectionHandle? ==> col.name in scene.collections
    modifies scene
    ensures scene.Valid() && fresh(copy)
    ensures copy.State() == toCopy.State()
    ensures scene.activeCollection == old(scene.activeCollection)
    ensures var target := ResolveCollection(old(scene.collections).Keys, old(scene.activeCollection), col);
            var before := if target in old(scene.collections) then old(scene.collections)[target] else [];
            scene.collections == old(scene.collections)[target := before + [copy]]
  {
    var target := ResolveCollection(scene.collections.Keys, scene.activeCollection, col);
    if target !in scene.collections {
      // create_collection: a new, empty collection of that name
      scene.collections := scene.collections[target := []];
    }
    copy := new SceneObject.Copy(toCopy.State());
    scene.collections := scene.collections[target := scene.collections[target] + [copy]];
  }

  /** `add_category_id(obj_ref, category_id)`. */
  method AddCategoryId(obj: SceneObject, categoryId: int)
    modifies obj
    ensures obj.State() == old(obj.State()).(props := old(obj.props)[CategoryKey := categoryId])
  {
    obj.props := obj.props[CategoryKey := categoryId];
  }

  /** `add_noisy_displacement(main_ref, strength, noise_depth, noise_scale)`:
      a displace modifier driven by a fresh cloud texture. */
  method AddNoisyDisplacement(obj: SceneObject, strength: real, noiseDepth: int, noiseScale: real)
    modifies obj
    ensures obj.State() == old(obj.State()).(modifiers := old(obj.modifiers) +
                                             [Modifier(DisplaceName, Displace(strength, noiseDepth, noiseScale))])
  {
    obj.modifiers := obj.modifiers + [Modifier(DisplaceName, Displace(strength, noiseDepth, noiseScale))];
  }

  /** `make_boolean_difference(main_ref, tool_ref)`: carve `tool` out of `target`. */
  method MakeBooleanDifference(target: SceneObject, tool: SceneObject)
    modifies target
    ensures target.State() == ApplyBooleanState(old(target.State()), Difference, old(tool.State()))
  {
    var shape := ToolShape(tool.location, tool.modifiers);
    target.modifiers := target.modifiers + [Modifier("Bool_Diff", Boolean(Difference))];
    // modifier_apply: the boolean leaves the stack and enters the mesh
    target.modifiers := target.modifiers[..|target.modifiers| - 1];
    target.history := target.history + [BooleanApplied(Difference, shape)];
  }

  /** `make_boolean_intersection(main_ref, tool_ref)`: keep only the part of
      `target` inside `tool`. */
  method MakeBooleanIntersection(target: SceneObject, tool: SceneObject)
    modifies target
    ensures target.State() == ApplyBooleanState(old(target.State()), Intersect, old(tool.State()))
  {
    var shape := ToolShape(tool.location, tool.modifiers);
    target.modifiers := target.modifiers + [Modifier("Bool_Inter", Boolean(Intersect))];
    target.modifiers := target.modifiers[..|target.modifiers| - 1];
    target.history := target.history + [BooleanApplied(Intersect, shape)];
  }

  /** `change_thickness(ref, thickness)`; `ok` is false where it raises. */
  method ChangeThickness(target: SceneObject, thickness: real) returns (ok: bool)
    modifies target
    ensures var r := ChangeThicknessState(old(target.State()), thickness);
            ok == r.Some? && (ok ==> target.State() == r.value)
    ensures !ok ==> target.State() == old(target.State())
  {
    var k := FirstNamed(target.modifiers, SolidName);
    if k.None? || !target.modifiers[k.value].kind.Solidify? {
      return false;
    }
    target.modifiers := target.modifiers[k.value := Modifier(SolidName, Solidify(thickness))];
    ok := true;
  }

  /** `make_solid(ref, tar_thickness)`; `ok` is false where it raises. */
  method MakeSolid(target: SceneObject, thickness: real) returns (ok: bool)
    modifies target
    ensures var r := MakeSolidState(old(target.State()), thickness);
            ok == r.Some? && (ok ==> target.State() == r.value)
    ensures !ok ==> target.State() == old(target.State())
  {
    if FirstNamed(target.modifiers, SolidName).Some? {
      ok := ChangeThickness(target, thickness);
    } else {
      target.modifiers := target.modifiers + [Modifier(SolidName, Solidify(thickness))];
      ok := true;
    }
  }

  /** `create_defect(main_obj_ref, tool_ref, vert, category_id)`. The new
      fragment is linked into the active collection. */
  method CreateDefect(scene: Scene, main: SceneObject, tool: SceneObject, vert: Vertex,
                      d: DefectDraws, categoryId: int) returns (fragment: SceneObject, completed: bool)
    requires scene.Valid() && main != tool && DrawsInRange(d)
    modifies scene, main, tool
    ensures scene.Valid() && fresh(fragment)
    ensures var r := CreateDefectState(old(main.State()), old(tool.State()), vert, d, categoryId);
            main.State() == r.main && tool.State() == r.tool &&
            fragment.State() == r.fragment && completed == r.completed
    ensures scene.activeCollection == old(scene.activeCollection)
    ensures scene.collections == old(scene.collections)[scene.activeCollection :=
              old(scene.collections)[scene.activeCollection] + [fragment]]
  {
    tool.location := ToolLocation(vert, d);
    var m := DisplaceFor(d);
    AddNoisyDisplacement(tool, m.kind.strength, m.kind.noiseDepth, m.kind.noiseScale);
    fragment := CopyObject(scene, main, ActiveCollection);
    AddCategoryId(fragment, categoryId);
    MakeBooleanDifference(main, tool);
    completed := MakeSolid(tool, DefaultThickness);
    if !completed {
      return;  // AttributeError: the run stops here
    }
    MakeBooleanIntersection(fragment, tool);
    tool.modifiers := [];
  }

  /** The DIFFERENCE a defect at `vert` with draws `d` leaves in the part's
      history, for a tool that arrives with modifier stack `mods`. */
  function CarveOf(vert: Vertex, d: DefectDraws, mods: seq<Modifier>): (op: GeomOp)
    requires DrawsInRange(d)
    ensures op.operation == Difference && op.tool.location == ToolLocation(vert, d)
    ensures |op.tool.modifiers| == |mods| + 1 && op.tool.modifiers[..|mods|] == mods
    ensures op.tool.modifiers[|mods|] == DisplaceFor(d)
  {
    BooleanApplied(Difference, ToolShape(ToolLocation(vert, d), mods + [DisplaceFor(d)]))
  }

  /** Entry `base + k` of the history `h` is the carve of defect `k`: it
      reads vertex `indices[k]` of the mesh as carved by the defects before
      it (`h[..base + k]`), uses `draws[k]`, and meets the tool with the stack
      `mods0` it started with when it is the first, and with the empty stack
      the previous defect left otherwise. */
  ghost predicate CarveAt(h: seq<GeomOp>, base: nat, indices: seq<nat>,
                          vertexAt: (seq<GeomOp>, nat) -> Option<Vertex>,
                          draws: seq<DefectDraws>, mods0: seq<Modifier>, k: nat)
  {
    && base + k < |h| && k < |indices| && k < |draws| && DrawsInRange(draws[k])
    && vertexAt(h[..base + k], indices[k]).Some?
    && h[base + k] == CarveOf(vertexAt(h[..base + k], indices[k]).value, draws[k],
                              if k == 0 then mods0 else [])
  }

  /** Entries `base .. base + n` of `h` are the carves of the first `n`
      selected indices, in selection order. */
  ghost predicate CarvesInOrder(h: seq<GeomOp>, base: nat, indices: seq<nat>,
                                vertexAt: (seq<GeomOp>, nat) -> Option<Vertex>,
                                draws: seq<DefectDraws>, mods0: seq<Modifier>, n: nat)
  {
    forall k :: 0 <= k < n ==> CarveAt(h, base, indices, vertexAt, draws, mods0, k)
  }

  /** Every carve in order is a DIFFERENCE. */
  lemma CarvesAreDifferences(h: seq<GeomOp>, base: nat, indices: seq<nat>,
                             vertexAt: (seq<GeomOp>, nat) -> Option<Vertex>,
                             draws: seq<DefectDraws>, mods0: seq<Modifier>, n: nat)
    requires CarvesInOrder(h, base, indices, vertexAt, draws, mods0, n) && |h| == base + n
    ensures forall j :: base <= j < |h| ==> h[j].operation == Difference
  {
    forall j | base <= j < |h| ensures h[j].operation == Difference {
      assert CarveAt(h, base, indices, vertexAt, draws, mods0, j - base);
    }
  }

  /** Appending the carve of the next index extends the carves in order. */
  lemma CarvesExtend(h: seq<GeomOp>, base: nat, indices: seq<nat>,
                     vertexAt: (seq<GeomOp>, nat) -> Option<Vertex>,
                     draws: seq<DefectDraws>, mods0: seq<Modifier>, n: nat, op: GeomOp)
    requires CarvesInOrder(h, base, indices, vertexAt, draws, mods0, n) && |h| == base + n
    requires n < |indices| && n < |draws| && DrawsInRange(draws[n])
    requires vertexAt(h, indices[n]).Some?
    requires op == CarveOf(vertexAt(h, indices[n]).value, draws[n], if n == 0 then mods0 else [])
    ensures CarvesInOrder(h + [op], base, indices, vertexAt, draws, mods0, n + 1)
  {
    var h' := h + [op];
    forall k | 0 <= k < n + 1
      ensures CarveAt(h', base, indices, vertexAt, draws, mods0, k)
    {
      if k < n {
        assert CarveAt(h, base, indices, vertexAt, draws, mods0, k);
        assert h'[..base + k] == h[..base + k];
        assert h'[base + k] == h[base + k];
      } else {
        assert h'[..base + k] == h;
      }
    }
  }

  /** The state of the fragment whose defect's carve is entry `n` of the
      part's history `h`: the part as it was before that carve, with the
      location and modifiers of `part`, its properties tagged with
      BLOWHOLE_ID, and, when it was intersected, one INTERSECT of the tool at
      the place of that carve. */
  ghost predicate FragmentStateAt(f: ObjState, h: seq<GeomOp>, n: nat, part: ObjState, intersected: bool) {
    && n < |h|
    && f.props == part.props[CategoryKey := BlowholeId]
    && f.location == part.location && f.modifiers == part.modifiers
    && (!intersected ==> f.history == h[..n])
    && (intersected ==>
          && |f.history| == n + 1 && f.history[..n] == h[..n]
          && f.history[n].operation == Intersect && f.history[n].tool.location == h[n].tool.location)
  }

  /** The fragments of the carves `base ..` of `h`, in order; all are
      intersected except the last when `failed`. */
  ghost predicate FragmentsInOrder(fs: seq<ObjState>, h: seq<GeomOp>, base: nat, part: ObjState, failed: bool) {
    forall j :: 0 <= j < |fs| ==> FragmentStateAt(fs[j], h, base + j, part, !(failed && j == |fs| - 1))
  }

  /** The fragment of the next carve extends the fragments in order. */
  lemma FragmentsExtend(fs: seq<ObjState>, h: seq<GeomOp>, base: nat, part: ObjState,
                        f: ObjState, op: GeomOp, intersected: bool)
    requires FragmentsInOrder(fs, h, base, part, false) && |h| == base + |fs|
    requires FragmentStateAt(f, h + [op], |h|, part, intersected)
    ensures FragmentsInOrder(fs + [f], h + [op], base, part, !intersected)
  {
    var fs', h' := fs + [f], h + [op];
    forall j | 0 <= j < |fs'|
      ensures FragmentStateAt(fs'[j], h', base + j, part, !(!intersected && j == |fs'| - 1))
    {
      if j < |fs| {
        assert FragmentStateAt(fs[j], h, base + j, part, true);
        assert h'[..base + j] == h[..base + j];
        assert h'[base + j] == h[base + j];
      }
    }
  }

  /** How the defect loop ended. */
  datatype LoopOutcome =
    | AllCreated
    | IndexOutOfRange(at: nat)   // `mo_vertices[v]` past the end of the live mesh
    | SolidifyFailed(at: nat)    // `make_solid` raised inside the at-th defect

  /** One pass of the top-level loop body (lines 181-182): read vertex `v` of
      the live mesh and create a blowhole there. `fragment` is None when the
      index is past the end of the mesh (IndexError). */
  method DefectIteration(scene: Scene, main: SceneObject, tool: SceneObject, v: nat,
                         vertexAt: (seq<GeomOp>, nat) -> Option<Vertex>, d: DefectDraws)
    returns (fragment: Option<SceneObject>, completed: bool)
    requires scene.Valid() && main != tool && DrawsInRange(d)
    modifies scene, main, tool
    ensures scene.Valid()
    ensures fragment.None? <==> vertexAt(old(main.history), v).None?
    ensures fragment.None? ==> !completed && main.State() == old(main.State()) &&
                               tool.State() == old(tool.State()) && scene.collections == old(scene.collections)
    ensures fragment.Some? ==>
              var at := ToolLocation(vertexAt(old(main.history), v).value, d);
              && fresh(fragment.value)
              && main.history == old(main.history) +
                                 [CarveOf(vertexAt(old(main.history), v).value, d, old(tool.modifiers))]
              && main.location == old(main.location) && main.modifiers == old(main.modifiers)
              && main.props == old(main.props) && tool.location == at
              && (completed ==> tool.modifiers == [])
              && (!completed ==> tool.modifiers == old(tool.modifiers) + [DisplaceFor(d)])
              && FragmentStateAt(fragment.value.State(), main.history, |old(main.history)|,
                                 old(main.State()), completed)
    ensures scene.activeCollection == old(scene.activeCollection)
    ensures fragment.Some? ==>
              scene.collections == old(scene.collections)[scene.activeCollection :=
                old(scene.collections)[scene.activeCollection] + [fragment.value]]
  {
    var vert := vertexAt(main.history, v);
    if vert.None? {
      return None, false;
    }
    CreateDefectEffects(main.State(), tool.State(), vert.value, d, BlowholeId);
    var f;
    f, completed := CreateDefect(scene, main, tool, vert.value, d, BlowholeId);
    fragment := Some(f);
  }

  /** What the first defects of the loop leave, from the part's state
      `part` before the loop: the part's history is `part.history` followed by
      the carves of the selected indices in order, one per fragment, and `fs`
      are the fragments' states, all intersected except the last when
      `failed`. */
  ghost predicate DefectsSoFar(h: seq<GeomOp>, part: ObjState, indices: seq<nat>,
                               vertexAt: (seq<GeomOp>, nat) -> Option<Vertex>, draws: seq<DefectDraws>,
                               mods0: seq<Modifier>, fs: seq<ObjState>, failed: bool)
  {
    && |h| == |part.history| + |fs| && part.history <= h
    && CarvesInOrder(h, |part.history|, indices, vertexAt, draws, mods0, |fs|)
    && FragmentsInOrder(fs, h, |part.history|, part, failed)
  }

  /** Pass `k` of the top-level loop: `DefectIteration` at `indices[k]` with
      `draws[k]`, seen against what the earlier passes left. The tool arrives
      with its own stack `mods0` on the first pass and with an empty one
      later. A created fragment extends `DefectsSoFar` by one and is linked
      into the active collection. */
  method DefectStep(scene: Scene, main: SceneObject, tool: SceneObject, indices: seq<nat>,
                    vertexAt: (seq<GeomOp>, nat) -> Option<Vertex>, draws: seq<DefectDraws>, k: nat,
                    ghost part: ObjState, ghost mods0: seq<Modifier>, ghost fs: seq<ObjState>)
    returns (fragment: Option<SceneObject>, completed: bool)
    requires scene.Valid() && main != tool
    requires k < |indices| && k < |draws| && DrawsInRange(draws[k]) && |fs| == k
    requires DefectsSoFar(main.history, part, indices, vertexAt, draws, mods0, fs, false)
    requires main.location == part.location && main.modifiers == part.modifiers && main.props == part.props
    requires tool.modifiers == if k == 0 then mods0 else []
    modifies scene, main, tool
    ensures scene.Valid() && scene.activeCollection == old(scene.activeCollection)
    ensures main.location == part.location && main.modifiers == part.modifiers && main.props == part.props
    ensures fragment.None? ==>
              && !completed && vertexAt(main.history, indices[k]).None?
              && main.State() == old(main.State()) && tool.State() == old(tool.State())
              && scene.collections == old(scene.collections)
    ensures fragment.Some? ==>
              && fresh(fragment.value)
              && scene.collections == old(scene.collections)[scene.activeCollection :=
                   old(scene.collections)[scene.activeCollection] + [fragment.value]]
              && DefectsSoFar(main.history, part, indices, vertexAt, draws, mods0,
                              fs + [fragment.value.State()], !completed)
              && (completed ==> tool.modifiers == [])
  {
    ghost var hk := main.history;
    fragment, completed := DefectIteration(scene, main, tool, indices[k], vertexAt, draws[k]);
    if fragment.Some? {
      var op := main.history[|hk|];
      assert main.history == hk + [op];
      CarvesExtend(hk, |part.history|, indices, vertexAt, draws, mods0, k, op);
      FragmentsExtend(fs, hk, |part.history|, part, fragment.value.State(), op, completed);
    }
  }

  /** The top-level loop (lines 179-182): one `create_defect` per selected
      index, in selection order, always with BLOWHOLE_ID. `mo_vertices` is
      the live vertex list of the part, so the vertex read for a defect comes
      from the mesh as carved so far: `vertexAt(history, v)`, None past its
      end. Every fragment is linked into the active collection; `states` are
      the fragments' states. */
  method CreateDefects(scene: Scene, main: SceneObject, tool: SceneObject, indices: seq<nat>,
                       vertexAt: (seq<GeomOp>, nat) -> Option<Vertex>, draws: seq<DefectDraws>)
    returns (fragments: seq<SceneObject>, outcome: LoopOutcome, ghost states: seq<ObjState>)
    requires scene.Valid() && main != tool
    requires |draws| >= |indices| && forall k :: 0 <= k < |draws| ==> DrawsInRange(draws[k])
    modifies scene, main, tool
    ensures scene.Valid()
    ensures outcome.AllCreated? ==> |fragments| == |indices|
    ensures outcome.IndexOutOfRange? ==> outcome.at == |fragments| < |indices|
    ensures outcome.SolidifyFailed? ==> outcome.at + 1 == |fragments| <= |indices|
    ensures forall k :: 0 <= k < |fragments| ==> fresh(fragments[k])
    ensures forall j, k :: 0 <= j < k < |fragments| ==> fragments[j] != fragments[k]
    ensures scene.activeCollection == old(scene.activeCollection)
    ensures scene.collections == old(scene.collections)[scene.activeCollection :=
              old(scene.collections)[scene.activeCollection] + fragments]
    ensures |states| == |fragments| && forall k :: 0 <= k < |fragments| ==> fragments[k].State() == states[k]
    ensures DefectsSoFar(main.history, old(main.State()), indices, vertexAt, draws, old(tool.modifiers),
                         states, outcome.SolidifyFailed?)
    ensures forall k :: 0 <= k < |fragments| ==>
              CategoryKey in fragments[k].props && fragments[k].props[CategoryKey] == BlowholeId
    ensures main.props == old(main.props)
    ensures |main.history| == |old(main.history)| + |fragments|
    ensures main.history[..|old(main.history)|] == old(main.history)
    ensures forall j :: |old(main.history)| <= j < |main.history| ==> main.history[j].operation == Difference
    ensures main.location == old(main.location) && main.modifiers == old(main.modifiers)
    ensures CarvesInOrder(main.history, |old(main.history)|, indices, vertexAt, draws,
                          old(tool.modifiers), |fragments|)
    ensures outcome.IndexOutOfRange? ==>
              outcome.at < |indices| && vertexAt(main.history, indices[outcome.at]).None?
    ensures outcome.AllCreated? && indices != [] ==> tool.modifiers == []
    ensures indices == [] ==> main.State() == old(main.State()) && tool.State() == old(tool.State()) &&
                              fragments == [] && scene.collections == old(scene.collections)
  {
    fragments := [];
    outcome := AllCreated;
    states := [];
    if indices == [] {
      assert scene.collections[scene.activeCollection] + fragments == scene.collections[scene.activeCollection];
      return;  // the loop body never runs
    }
    ghost var h0 := main.history;
    ghost var fstates: seq<ObjState> := [];
    ghost var c0 := scene.collections[scene.activeCollection];
    assert c0 + fragments == c0;
    assert scene.collections == scene.collections[scene.activeCollection := c0];
    var k := 0;
    while k < |indices| && outcome.AllCreated?
      invariant 0 <= k <= |indices| && |fragments| == k == |fstates|
      invariant outcome.IndexOutOfRange? ==> outcome.at == k < |indices|
      invariant outcome.SolidifyFailed? ==> outcome.at + 1 == k
      invariant scene.Valid() && scene.activeCollection == old(scene.activeCollection)
      invariant scene.collections == old(scene.collections)[scene.activeCollection := c0 + fragments]
      invariant forall j :: 0 <= j < k ==> fresh(fragments[j])
      invariant forall i, j :: 0 <= i < j < k ==> fragments[i] != fragments[j]
      invariant forall j :: 0 <= j < k ==> fragments[j].State() == fstates[j]
      invariant DefectsSoFar(main.history, old(main.State()), indices, vertexAt, draws, old(tool.modifiers),
                             fstates, outcome.SolidifyFailed?)
      invariant main.location == old(main.location) && main.modifiers == old(main.modifiers) &&
                main.props == old(main.props)
      invariant outcome.IndexOutOfRange? ==> vertexAt(main.history, indices[outcome.at]).None?
      invariant outcome.AllCreated? ==> tool.modifiers == if k == 0 then old(tool.modifiers) else []
      decreases |indices| - k, if outcome.AllCreated? then 1 else 0
    {
      var fragment, completed := DefectStep(scene, main, tool, indices, vertexAt, draws, k,
                                            old(main.State()), old(tool.modifiers), fstates);
      if fragment.None? {
        outcome := IndexOutOfRange(k);
      } else {
        fstates := fstates + [fragment.value.State()];
        assert (c0 + fragments) + [fragment.value] == c0 + (fragments + [fragment.value]);
        fragments := fragments + [fragment.value];
        k := k + 1;
        if !completed {
          outcome := SolidifyFailed(k - 1);
        }
      }
    }
    CarvesAreDifferences(main.history, |h0|, indices, vertexAt, draws, old(tool.modifiers), k);
    states := fstates;
  }
}
