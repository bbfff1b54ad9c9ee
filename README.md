# Surface-inspection training data generator, modelled in Dafny

The generator makes synthetic training images of a cast-iron turbocharger
housing. Inside Blender, `generatedefects.py` carves evenly spaced
"blowhole" defects into the part and keeps each carved-out piece as a
labelled fragment. `randomizetexture.py` re-draws the parameters of the
cast-iron material. `main.py` loads the camera poses of the inspection path,
multiplies and jitters them, writes the camera and light configuration for
BlenderProc and numbers the render outputs. Finally `sortdataset.py` reads
the segmentation maps of the rendered bundles, counts defect pixels and copies
each bundle into a `defect` or `faultfree` folder.

The project models that logic and proves what it guarantees:

| module | file | models |
|---|---|---|
| `GenerateDefects` | `defects.dfy` | `select_defect_verts` as a loop, with its termination window. The modifier and history bookkeeping of `create_defect`, `make_solid`, `change_thickness`, the two boolean operations, `add_category_id` and `copy_object`, on heap objects. The top-level defect loop. |
| `SortDataset` | `sortdataset.dfy` | `get_path_list`, the names of `create_output_folders`, `count_classes`, the class-threshold rule and the copy loop with its four counters. |
| `LightConfig` | `lightconfig.dfy` | `change_light_params`: the three regular-expression substitutions on the configuration template, line by line. |
| `CameraPoses` | `poses.dfy` | Loading the pose lines, `cam_pos_writer`, `generate_additional_poses` with its shared, mutable pose lists, and the render loop. |
| `RenderRuns` | `renders.dfy` | The run numbering and loop order of the render loop. |
| `RandomizeTexture` | `texture.dfy` | `rnd_cast_iron` over shader-node objects, and the noise-scale table. |
| `Text`, `Draws`, `Wrappers` | `text.dfy`, `draws.dfy`, `wrappers.dfy` | `str(n)`, `split`/`join`, substring tests, `posixpath.join`; `random.uniform`; `Option`/`Result`. |

These conventions hold throughout:

- **Random draws are parameters.** Every value of `random.random()` is a real `u` with `0 <= u < 1`. `random.uniform(a, b)` is `a + (b - a) * u`, the formula CPython uses. `random.randint(0, step)` is a given integer in that range.
- **Floats are reals.** `1.3` is exactly 13/10.
- **Blender objects are abstract.** An object is its location, its modifier stack, the history of boolean operations baked into its mesh, and its custom properties. The geometry itself is not modelled.
- **The Python objects that the code updates in place are heap objects:**
  - Blender objects are `SceneObject`;
  - shader nodes are `ShaderNode`;
  - the pose lists are `array<real>`, inside a `Pose` object, so the aliasing in `generate_additional_poses` is real.
- **A call that raises** yields an error value: an `Option`, a `Selection` outcome or a `LoopOutcome`. It is never a precondition. The one exception is `copy_object` into an existing collection given by name: `CopyObject` follows the corrected behaviour of the finding below, and `CopyIntoExistingNameFails` states the behaviour as written.

These are behaviours of the code, as the model proves them:

- **`select_defect_verts` can run forever.** With `0 < V < 1.3 N` the step is 0 and the loop appends index 0 for ever (`NonTerminationWindow`).
- **`rnd_cast_iron` has room for three noise nodes.** A fourth noise node reads past the end of the six-entry table, and the loop stops with an `IndexError` there, leaving that node and every node after it untouched (`OverrunIffFourNoiseNodes`, `RndCastIron`).
- **`change_light_params` never reads its `config_content` argument.** It always substitutes into `CONFIG_BASE_CONTENT` (`ChangeLightParams`, `ChangeLightParamsLines`).
- **`generate_additional_poses` jitters the base poses themselves.** It appends the same pose object `1 + RAND_POSES_PER_POSE` times. Each base pose is therefore jittered three times per call, and the jitter accumulates over the 15 calls of the render loop (`GenerateAdditionalPoses`, `RenderLoop`).
- **`ctr` restarts at 0 for each list.** So for the three-number lists of the pose file, every number gets a draw in ±0.1, and the ±0.0349 rotation range is never used (`ShortListsUseLocRange`).
- **The source's comment and its code disagree on the jitter ranges.** The comment says the first three entries are location and the rest rotation; the code does the above. The model follows the code.

## Model

| member | source | states |
|---|---|---|
| GenerateDefects.Step | TDG/generatedefects.py:158 | `step_size = int(V / (1.3 N))` is the floor of 10V / 13N: `13 N step <= 10 V < 13 N (step + 1)` |
| GenerateDefects.SelectDefectVerts | TDG/generatedefects.py:155-165 | N = 0 is exactly the ZeroDivisionError outcome; non-termination happens exactly when the guard never fails; otherwise the result is exactly the run of indices from the start draw, `step` apart, while `v + step < V / 1.3` |
| GenerateDefects.TerminatesIff | TDG/generatedefects.py:162-164 | the loop stops if and only if `step > 0` or the first guard already fails |
| GenerateDefects.NonTerminationWindow | TDG/generatedefects.py:158-164 | for a start draw in `[0, step]`, the loop runs forever if and only if `0 < V < 1.3 N` |
| GenerateDefects.RunProperties | TDG/generatedefects.py:159-164 | the run starts at the start draw; successive indices differ by exactly `step`; it is strictly increasing when `step > 0`; every index satisfies `v + step < V`, so is a valid vertex index; `V = 0` gives no indices |
| GenerateDefects.RunUnique | TDG/generatedefects.py:160-164 | the guard determines the output: two runs from the same start, step and V are equal |
| GenerateDefects.RunIndexStep | TDG/generatedefects.py:164 | the (k+1)-th index reached is the k-th plus `step` |
| GenerateDefects.ExampleRunLength | TDG/generatedefects.py:155-165 | for V = 1300 and the default N = 101 the step is 9, and the run from start s has `(990 - s) / 9 + 1` indices |
| GenerateDefects.ExampleRunIsRun | TDG/generatedefects.py:160-164 | the written-out example run is what the loop emits for V = 1300, step 9 |
| GenerateDefects.FirstNamed | TDG/generatedefects.py:98 | `modifiers['Solid']` finds the first modifier with that name, and is None exactly when no modifier has it |
| GenerateDefects.AppendFirstSolid | TDG/generatedefects.py:91 | a "Solid" modifier added to a stack without one becomes its one and only "Solid", at the end of the stack |
| GenerateDefects.ChangeThicknessState | TDG/generatedefects.py:95-98 | it fails exactly when there is no "Solid" modifier (KeyError) or it is not a solidify modifier; otherwise only that modifier changes, to the new thickness |
| GenerateDefects.MakeSolidState | TDG/generatedefects.py:85-98 | it fails only where `change_thickness` does; otherwise the first "Solid" modifier has the target thickness; the number of "Solid" modifiers becomes 1 when it was 0 and is unchanged otherwise (never a duplicate); the stack grows by one exactly when it held no "Solid" modifier and keeps its length otherwise; other modifiers, location, history and properties are kept |
| GenerateDefects.DisplaceFor | TDG/generatedefects.py:140-143 | the displacement has strength in [-0.8, 0.8], noise depth `int(uniform(0, 20))` in 0..19, and scale in [2, 10] |
| GenerateDefects.NoSolidWithDisplace | TDG/generatedefects.py:118-122 | adding the "Displace" modifier adds no "Solid" one |
| GenerateDefects.CreateDefectEffects | TDG/generatedefects.py:136-153 | the part gains exactly one DIFFERENCE, against the tool as located and displaced, and nothing else on it changes; the fragment is the uncarved part tagged with the category id; if `make_solid` succeeds, the fragment gains one INTERSECT with the tool at the same place, wearing a "Solid" shell, and the tool ends with an empty stack |
| GenerateDefects.CreateDefectFreshTool | TDG/generatedefects.py:136-153 | a tool without "Solid" never makes the step fail; the carve sees the tool without a shell, and the intersection sees it with exactly one shell of the default thickness 0.01 |
| GenerateDefects.SceneObject.Copy | TDG/generatedefects.py:52-54 | the copy has the same location, modifiers, mesh history and custom properties |
| GenerateDefects.CopyIntoExistingNameFails | TDG/generatedefects.py:44-55 | as written, `copy_object` into an existing collection given by name always raises at `.objects` |
| GenerateDefects.ResolveCollection | TDG/generatedefects.py:42-50 | the intended collection: the active one for `None`, otherwise the one the name or object designates; it agrees with the code wherever the code succeeds |
| GenerateDefects.CopyObject | TDG/generatedefects.py:37-56 | the corrected `copy_object` (see Findings): a fresh object equal to the original is appended to the resolved collection, which is created empty when the name is new; other collections and the active collection are unchanged |
| GenerateDefects.AddCategoryId | TDG/generatedefects.py:167-168 | only the `category_id` property changes, to the given id |
| GenerateDefects.AddNoisyDisplacement | TDG/generatedefects.py:118-122 | one "Displace" modifier with the given strength, depth and scale is appended; nothing else changes |
| GenerateDefects.MakeBooleanDifference | TDG/generatedefects.py:100-107 | applying the modifier leaves the stack as it was and appends one DIFFERENCE, against the tool as it is, to the mesh history |
| GenerateDefects.MakeBooleanIntersection | TDG/generatedefects.py:109-116 | the same with INTERSECT |
| GenerateDefects.ChangeThickness | TDG/generatedefects.py:95-98 | the object's new state is `ChangeThicknessState`, or it is unchanged where that raises |
| GenerateDefects.MakeSolid | TDG/generatedefects.py:85-92 | the object's new state is `MakeSolidState`, or it is unchanged where that raises |
| GenerateDefects.CarveOf | TDG/generatedefects.py:137-147 | the history entry of one carve is a DIFFERENCE at the tool location of the vertex and the offset draw, with the tool's stack followed by the displacement of these draws |
| GenerateDefects.CarvesExtend | TDG/generatedefects.py:181-182 | appending the carve of the next index to the history keeps the earlier carves in order and adds it as the next one |
| GenerateDefects.CreateDefect | TDG/generatedefects.py:136-153 | the part, the tool and the new fragment end in the states `CreateDefectState` gives; the fragment is appended to the active collection |
| GenerateDefects.CarvesAreDifferences | TDG/generatedefects.py:181-182 | every carve the loop records is a DIFFERENCE |
| GenerateDefects.FragmentsExtend | TDG/generatedefects.py:181-182 | the fragment of the next carve extends the fragments in order, and only the newest may lack its INTERSECT |
| GenerateDefects.DefectIteration | TDG/generatedefects.py:181-182 | an index past the end of the live mesh raises and changes nothing. Otherwise the vertex is read from the live mesh at that index. The part gains exactly the DIFFERENCE `CarveOf` gives for that vertex, these draws and the tool's stack, with location, modifiers and properties kept. The tool sits at that vertex's tool location. The fresh fragment is linked into the active collection. By `FragmentStateAt`, it is the uncarved part with `category_id = 2`. If `make_solid` raised, the fragment is not intersected and the tool keeps the displacement. Otherwise the fragment gains one INTERSECT at the carve's tool location and the tool's stack is empty. |
| GenerateDefects.DefectStep | TDG/generatedefects.py:181-182 | pass k of the loop reads `indices[k]` with `draws[k]`. An index past the end of the live mesh changes nothing. Otherwise `DefectsSoFar` grows by the new fragment, which is fresh and appended to the active collection. |
| GenerateDefects.CreateDefects | TDG/generatedefects.py:174-182 | one `create_defect` per index in order, with BLOWHOLE_ID = 2. It stops at the first IndexError or failed `make_solid`, and the fragments made so far are counted by the outcome. There is one distinct, fresh, tagged fragment per defect. The fragments are appended, in order, to the active collection, and no other collection changes. The part gains exactly one DIFFERENCE per defect, on top of its old history, with location and modifiers kept. `DefectsSoFar`, over the fragments' states, says more. Fragment k is the part with `category_id = 2`, holding the part's history up to carve k. Every fragment but a last one whose `make_solid` raised also carries one INTERSECT at carve k's tool location. `CarvesInOrder` pins each DIFFERENCE: defect k reads `indices[k]` from the mesh as carved by the defects before it and uses `draws[k]`. The tool meets the first defect with its own stack and later ones with an empty stack. An IndexError is raised exactly at an index past the end of the live mesh. After a complete run the tool's stack is empty. No indices leaves everything untouched. |
| SortDataset.GetPathList | sortdataset.py:22-33 | the result is the walked paths `subdir + sep + file`, in walk order, filtered by `PathList` |
| SortDataset.CollectEntry | sortdataset.py:25-32 | the inner loop over one directory adds exactly the kept paths of its files, in order |
| SortDataset.CollectFile | sortdataset.py:27-32 | a path is appended if and only if it ends with ".hdf5" and does not contain "sorted_dataset" |
| SortDataset.EntryPaths | sortdataset.py:25-27 | the paths of one directory are its files joined to the directory with `os.sep`, in listing order |
| SortDataset.Filter | sortdataset.py:29-32 | a path is kept if and only if it passes the test |
| SortDataset.FilterSnoc | sortdataset.py:29-32 | filtering one more path adds that path exactly when it passes, after the ones kept before |
| SortDataset.CandidatesMembers | sortdataset.py:24-27 | a path is walked if and only if it is `subdir + sep + file` for a file listed under that directory |
| SortDataset.PathListMembers | sortdataset.py:22-33 | the result holds exactly the walked paths that end in ".hdf5" and do not contain "sorted_dataset" |
| SortDataset.OutputFolders | sortdataset.py:10-20 | two folders, `mydir/defect` and `mydir/faultfree`, under `mydir = wd/sorted_dataset<timestamp>` |
| SortDataset.ContainsPrefix | sortdataset.py:29 | a path that extends a prefix containing "sorted_dataset" contains it too |
| SortDataset.OutputFoldersMarked | sortdataset.py:11-13 | both output folder paths contain "sorted_dataset" |
| SortDataset.ReRunSkipsOutput | sortdataset.py:11-29 | no file in or below either output folder is ever listed by `get_path_list`, so a re-run does not pick up its own output |
| SortDataset.FirstHalf | sortdataset.py:59 | `np.dsplit(segmap, 2)[0]` fails exactly on an odd channel count; otherwise every pixel keeps its first `depth / 2` channels |
| SortDataset.CountInRow | sortdataset.py:38-40 | `np.count_nonzero(row == v)` is the number of values of the row equal to `v` |
| SortDataset.CountClasses | sortdataset.py:35-41 | for each of the class ids 0, 1 and 2, the count is exactly the number of values in the grid equal to it |
| SortDataset.ClassCountsBounded | sortdataset.py:35-41 | the three counts add up to at most the number of values, since other values are not counted |
| SortDataset.Classify | sortdataset.py:65-72 | defect bucket if and only if `defect >= 50`; fault-free if and only if `defect == 0`; ambiguous if and only if `0 < defect < 50` |
| SortDataset.Sort | sortdataset.py:52-75 | the loop stops at the first file whose map has an odd channel count, or runs to the end; the copies made are exactly `Copies` of the files read, and the counters are `TallyOf` their defect counts, with `backgcount` 0 |
| SortDataset.SortFile | sortdataset.py:57-72 | one pass fails exactly on an odd channel count and then changes nothing; otherwise it extends the counts, copies and counters by that file |
| SortDataset.RouteFile | sortdataset.py:65-72 | the copy made for one file is the one `Route` prescribes, and the counters become those of one more file |
| SortDataset.DefectCountsStep | sortdataset.py:59-61 | the defect counts of one more file are those before plus its class-2 count on the first channel half |
| SortDataset.CopiesStep | sortdataset.py:56-72 | the copies for one more file are those before, followed by its own |
| SortDataset.CopiesAgree | sortdataset.py:56-72 | the copies of the first n files depend on those files only |
| SortDataset.BucketsPartition | sortdataset.py:52-75 | `defcount + faultfcount + sdefcount` is the number of files read |
| SortDataset.CopiesLength | sortdataset.py:65-70 | exactly one copy is made per file routed to the defect or fault-free folder |
| SortDataset.CopiesMembers | sortdataset.py:65-70 | a copy is made if and only if it is file i's own copy: its source is the unchanged path `path_list[i]` and its destination is the next number in its folder |
| SortDataset.CountInIncreases | sortdataset.py:66-69 | a file's number in its folder is larger than that of every earlier file in the same folder |
| SortDataset.SameFolderDistinctNames | sortdataset.py:66-69 | two files copied to the same folder never get the same destination `<folder>/k.hdf5` |
| LightConfig.FindFrom | TDG/main.py:29-31 | the first occurrence of a key at or after a position, or None when there is none |
| LightConfig.LastIndexOf | TDG/main.py:29-30 | the position of the last `]` of a line, or None when there is none |
| LightConfig.MatchesAtKey | TDG/main.py:29-31 | every match of a pattern starts at an occurrence of its key |
| LightConfig.NoKeyNoMatch | TDG/main.py:29-31 | a line without the key has no match |
| LightConfig.BracketedMatchEnds | TDG/main.py:29-30 | a location or rotation match ends just after a `]` that lies past the key |
| LightConfig.ToLineEndFirst | TDG/main.py:31 | the energy pattern matches from the first key to the end of the line (greedy `.*`, no newline) |
| LightConfig.BracketedFirst | TDG/main.py:29-30 | the location or rotation pattern matches from the first key to the last `]` of the line |
| LightConfig.BracketedNone | TDG/main.py:29-30 | without a `]` past the first key, the location or rotation pattern does not match |
| LightConfig.SubLine | TDG/main.py:128-130 | on one line, the leftmost-longest match is replaced by the substitute, or the line is unchanged when there is no match. For a non-empty key, what follows the first match holds no other match, so this is every match `re.sub` replaces. No newline is introduced. |
| LightConfig.NoBracketNoMatch | TDG/main.py:29-30 | a tail of a line without a `]` holds no match of the location or rotation pattern |
| LightConfig.KeylessLineUnchanged | TDG/main.py:128-130 | a line that does not hold the key is left unchanged |
| LightConfig.SubAllLines | TDG/main.py:128-130 | a `re.sub` pass with a newline-free substitute keeps the number of lines and rewrites each line on its own |
| LightConfig.SubAllWithoutKey | TDG/main.py:128-130 | a pass changes nothing when no line holds the key |
| LightConfig.KeylessLightLine | TDG/main.py:124-130 | a line holding none of the three keys passes through all three substitutions unchanged |
| LightConfig.LightPassesLines | TDG/main.py:125-130 | the three passes keep the line structure and rewrite each line by the three substitutions in order |
| LightConfig.ChangeLightParamsLines | TDG/main.py:124-130 | the written text has the template's lines, each rewritten on its own, whatever the `config_content` argument is |
| CameraPoses.Pose.constructor | TDG/main.py:211 | a pose is two new, distinct lists holding the given numbers |
| CameraPoses.FirstMissing | TDG/main.py:211 | the first of X, Y, Z, A, B, C, in lookup order, that the line lacks, or None when it has all six |
| CameraPoses.Lookup | TDG/main.py:211 | the values of the keys, in key order |
| CameraPoses.LoadPoses | TDG/main.py:206-212 | when every line has the six keys: one pose per line, in file order, `([X, Y, Z], [A, B, C])`, all lists fresh and unshared; otherwise it stops at the first line lacking a key and names that line and the key the KeyError reports |
| CameraPoses.LoadPose | TDG/main.py:210-211 | a line with all six keys gives the pose `([X, Y, Z], [A, B, C])` in two fresh lists |
| CameraPoses.SeparateFresh | TDG/main.py:211-212 | appending a pose with fresh lists keeps every list unshared |
| CameraPoses.CamPosWriter | TDG/main.py:135-140 | the file text is `str(num) + " "` for every number of the location list and then of the rotation list |
| CameraPoses.SerializeJoin | TDG/main.py:137-139 | the written text is the tokens joined by spaces |
| CameraPoses.TokensSpaceFree | TDG/main.py:139 | no token contains a space when no printed number does |
| CameraPoses.SerializeSplit | TDG/main.py:135-140 | splitting the written line on spaces gives back the printed numbers in order and an empty rest: six tokens for a pose |
| CameraPoses.Jitter | TDG/main.py:178-181 | entries with `ctr < 3` move by a draw in [-0.1, 0.1], later ones by a draw in [-0.0349, 0.0349] |
| CameraPoses.VisitAllAppend | TDG/main.py:173-182 | passes compose: doing a then b is doing a + b |
| CameraPoses.BandIsProduct | TDG/main.py:173-182 | n widths of b add up to `n * b` |
| CameraPoses.VisitAllBounded | TDG/main.py:173-182 | after n passes, entry v has moved by at most n times its jitter bound, in either direction |
| CameraPoses.ShortListsUseLocRange | TDG/main.py:175-181 | for lists of at most three numbers, every entry, rotation included, gets the ±0.1 draw |
| CameraPoses.JitterPose | TDG/main.py:174-182 | both lists of one entry get one pass each |
| CameraPoses.JitterList | TDG/main.py:175-182 | the `ctr` loop over a list is one pass: entry v gets `Jitter(v, u_v)` added |
| CameraPoses.GenerateAdditionalPoses | TDG/main.py:168-183 | the result has three times as many entries as there are base poses, entry t being base pose t / 3 itself, so copies are one object; each base pose's lists are changed in place by its three passes in order |
| CameraPoses.PoseStep | TDG/main.py:173-182 | jittering entry t gives base pose t / 3 its next visit and leaves the others as they are |
| CameraPoses.VisitsStep | TDG/main.py:170-173 | entry t of `cam_poses` is visit t mod 3 of base pose t / 3 |
| CameraPoses.DoneStep | TDG/main.py:170-173 | entry t visits no other base pose |
| CameraPoses.PoseTextAt | TDG/main.py:220-224 | the text of entry t is that of base pose t / 3 after m calls |
| CameraPoses.RenderLoop | TDG/main.py:186-239 | `count` ends equal to the number of runs, 15 models times 3 entries per base pose times 2 images. The runs are numbered `output0, output1, ...` in the order of the three loops. Each run reads the text of its pose as jittered up to its model. The base poses end jittered by all 15 calls. |
| CameraPoses.RenderModels | TDG/main.py:215-239 | the outer loop renders all 15 models in order and jitters the base poses 15 times |
| CameraPoses.RenderModel | TDG/main.py:215-239 | one iteration continues the runs of the models before and moves the base poses on by one call |
| CameraPoses.ModelIteration | TDG/main.py:220-239 | the runs of one model are numbered on from `count`, in loop order, each reading its pose's text |
| CameraPoses.NextPoses | TDG/main.py:220 | after the call for model i, every entry serializes to its base pose's text after i + 1 calls |
| CameraPoses.CamPosesTexts | TDG/main.py:220-224 | every entry serializes to the text of the base pose it is |
| CameraPoses.RenderPoses | TDG/main.py:222-239 | each run of a model reads the text its entry serializes to, numbered on in order |
| CameraPoses.NextModel | TDG/main.py:215-220 | the base poses after one more call are those of `PosesAfter(i + 1)` |
| CameraPoses.NextModelAt | TDG/main.py:215-220 | the same for one base pose |
| CameraPoses.RunReadsPose | TDG/main.py:222-237 | every run reads the text of the base pose its entry copies, as jittered by the calls up to and including that of its model |
| RenderRuns.ModelsStep | TDG/main.py:215-239 | the runs of model i continue those of the models before it |
| RenderRuns.LastRunOfModel | TDG/main.py:215-234 | after the last image of the last pose comes the first image of the next model |
| RenderRuns.AppendRuns | TDG/main.py:234-239 | two stretches of runs join into one that stays numbered and in order |
| RenderRuns.PosesStep | TDG/main.py:222-239 | the runs of pose t continue those of the poses before it |
| RenderRuns.PoseRuns | TDG/main.py:234-239 | `IMGS_PER_POSE` runs, all reading the same pose text, writing to `output_base_path + str(count)` for successive counts |
| RenderRuns.RunOutputsDistinct | TDG/main.py:237-239 | no two runs write to the same output folder |
| RandomizeTexture.RangesOrdered | TDG/randomizetexture.py:12-29 | the table holds three ranges, each with min < max, and the multiplier and roughness ranges are proper too |
| RandomizeTexture.Randomize | TDG/randomizetexture.py:69-80 | the noise node of rank k gets only its scale changed, to a value in table range k. A BSDF gets only base colour and roughness: colour `(r, g, b, 1)` with r, g, b in [0, 1), roughness in [0.05, 0.15). A MATH node gets only `inputs[1]`, in [5, 10). Any other node is unchanged. |
| RandomizeTexture.NoiseScaleRanges | TDG/randomizetexture.py:12-21 | the three noise scale ranges are [16, 24), [6.4, 9.6) and [0.16, 0.24) |
| RandomizeTexture.NoiseRank | TDG/randomizetexture.py:68-73 | the number of noise nodes before a node, at most its position |
| RandomizeTexture.Overrun | TDG/randomizetexture.py:69-73 | the first node whose table index is out of range, or None when no node overruns the table |
| RandomizeTexture.OverrunFrom | TDG/randomizetexture.py:69-73 | the same, from a given node on |
| RandomizeTexture.RanksBeforeOverrun | TDG/randomizetexture.py:68-73 | before the overrun, at most three noise nodes have been seen, and every noise node has a range in the table |
| RandomizeTexture.OverrunIffFourNoiseNodes | TDG/randomizetexture.py:68-73 | the loop fails if and only if there are more than three noise nodes, and it fails at the fourth |
| RandomizeTexture.RankGrows | TDG/randomizetexture.py:73 | `i` only grows along the nodes |
| RandomizeTexture.ExpectedMeans | TDG/randomizetexture.py:69-80 | once the loop stops, the nodes it reached are randomized by type and rank, and the rest are untouched |
| RandomizeTexture.RndCastIron | TDG/randomizetexture.py:65-80 | the loop fails exactly at `Overrun` (the fourth noise node). Every node before it is randomized according to its type and, for a noise node, its rank. That node and every node after it keep their inputs. |
| RandomizeTexture.RandomizeAll | TDG/randomizetexture.py:68-80 | the loop leaves exactly the expected states and reports the overrun |
| RandomizeTexture.NodeStep | TDG/randomizetexture.py:69-80 | one pass randomizes node n alone and advances `i` by 2 exactly on a noise node |
| RandomizeTexture.RandomizeAt | TDG/randomizetexture.py:69-80 | randomizing node n changes no other node |
| RandomizeTexture.ExpectedStep | TDG/randomizetexture.py:69-80 | passing node n changes the expected state at n alone |
| RandomizeTexture.RandomizeNode | TDG/randomizetexture.py:70-80 | the body of the loop leaves the node in its `Randomize` state |
| Text.NatToString | sortdataset.py:65-70 | `str(n)`: at least one decimal digit, one exactly for n < 10 |
| Text.NatToStringInjective | sortdataset.py:65-70 | different numbers print differently |
| Text.NumberedNamesDistinct | TDG/main.py:237 | names that differ only in their number are different |
| Text.SplitOn | TDG/main.py:139 | `split` gives at least one part, none holding the separator |
| Text.JoinSplit | TDG/main.py:139 | joining what was split gives back the text |
| Text.SplitJoin | TDG/main.py:139 | splitting what was joined gives back the parts, when none holds the separator |
| Text.SplitNoSep | TDG/main.py:139 | a text without the separator splits into itself |
| Text.SplitPrefix | TDG/main.py:139 | a separator-free head followed by the separator splits off as the first part |
| Text.ContainsInContext | sortdataset.py:29 | a substring of a part is a substring of the whole |
| Text.PathJoin | sortdataset.py:11-13 | `os.path.join` gives the name alone when it is absolute, and otherwise the directory followed by the name |
| Text.PathJoinContains | sortdataset.py:11-13 | joining a relative name keeps every substring of both sides |
| Text.PathJoinInjective | sortdataset.py:65-70 | joining onto a fixed directory never maps two relative names to one path |
| Draws.ScaleUnit | TDG/generatedefects.py:137 | a unit draw scaled by d lies in [0, d], strictly below d when d > 0 |
| Draws.Uniform | TDG/generatedefects.py:140-142 | `random.uniform(a, b)` lies in [a, b], strictly below b when a < b |

## Left out

- Blender geometry is not modelled: the results of the boolean operations, solidify, displacement, cloud textures, `shade_smooth` and deleting the tool afterwards (TDG/generatedefects.py:184-209). A modifier is its name and kind, and an applied boolean is a history entry recording the tool as the operation saw it. The vertex a defect reads from the carved mesh is a given lookup function on the mesh history.
- `get_object` by name (a KeyError on an unknown name) is not modelled: objects are passed as references.
- File and process I/O are not modelled: `open`/`write`, `os.mkdir`/`os.makedirs`, `os.walk`, `shutil.copy`, `h5py.File`, `subprocess.Popen`/`run` and the BlenderProc runs. The walk is a given sequence of `(subdir, dirs, files)` triples. The segmentation maps are given values. A copy is a recorded (source, destination) pair. `cam_pos_writer` returns the text it would write.
- The `EEXIST` handling of `create_output_folders` is filesystem policy, so only the folder names are modelled. The timestamp from `datetime.now()` is an uninterpreted string parameter.
- `print` of the four counters is not modelled. The counters are returned.
- Random number generation is not modelled:
  - every draw is a given unit value;
  - one `rnd_cast_iron` call gets four draws per node, one `create_defect` call four draws, and one pose visit one draw per number;
  - Python's single global random stream is not modelled as such.
- `random.randint(LIGHT_ENERGY*0.3, LIGHT_ENERGY*3)` for the light energy is not modelled. It depends on how the Python version treats float arguments.
- The light position (`calc_light_position`, `Rx`, `Ry`, `Rz`) is not modelled. It is floating-point trigonometry. `RenderLoop` does not model the configuration file written for each pose; `LightConfig` models what it contains.
- `ast.literal_eval` is not modelled. A parsed pose line is a map from key to number, and a line that is not a dict literal is not modelled.
- Float rounding is not modelled: of `1.3` and `1/1.3`, of the table products such as `0.8*20`, and of the jittered sums. All are exact reals.
- `str(float)` is a given function `show`. `SerializeSplit` requires that it prints no space.
- LightConfig.ChangeLightParams: it treats the substitutes as literal text and requires them to hold no backslash. `re.sub` would read a backslash as an escape.
- LightConfig.ChangeLightParamsLines: it shows that the output consists of the template's lines, each rewritten by the three substitutions. It does not compute the concrete result, that exactly three lines of the template change. That would mean evaluating the key search over every line of the whole template text inside the verifier, far beyond the proofs' resource budget. `KeylessLightLine` gives the general fact: a line holding none of the three keys passes unchanged.
- GenerateDefects.CopyObject: it models the corrected `copy_object`. For a collection name that already exists, the code makes the copy (TDG/generatedefects.py:52-54) and then raises AttributeError at line 55; the model links the copy into that collection. `CopyIntoExistingNameFails` states the behaviour as written. Within the core, `create_defect` always copies into the active collection, where both agree.
- GenerateDefects.DefectIteration: it does not restate the full `CreateDefectState` of the defect. It states the carve, the tool's location, the fragment's state up to the INTERSECT's location, the link into the active collection and the outcome of `make_solid`. The tool's stack as the INTERSECT sees it, with its "Solid" shell, is stated by `CreateDefect` and `CreateDefectEffects`.
- GenerateDefects.CreateDefects: it states each INTERSECT's operation and location, not the shelled tool stack it sees. That per-defect fact is `CreateDefect`'s and `CreateDefectEffects`'.
- LightConfig.SubLine: that no second match follows is stated for a non-empty key only. An empty `KEY.*` would also match the empty tail. All three patterns of the code have non-empty keys.
- The path separator is POSIX, `/`, and `Text.PathJoin` is `posixpath.join`. The argument lists passed with `shell=True` (TDG/main.py:218, TDG/main.py:235) run as intended only on Windows, where `os.sep` is `\` and `os.path.join` is `ntpath.join`. The proved properties are stated for the POSIX form. `ntpath.join`'s drive-letter rules are not modelled.
- CameraPoses.VisitAllBounded: the bound is stated as `Band(n, b)`, the n-fold sum of b. That it equals `n * b` is the separate lemma `BandIsProduct`.
- CameraPoses.RenderLoop: the closed form of `count` is given as `ModelsRendered`'s length, `DefectModelsAmount * (Repeats * |base| * ImgsPerPose)`. The product is not spelled out as a number because `|base|` is a parameter.

## Findings

| source | as written | input that shows it | evidently intended | confidence | as-written member | corrected member |
|---|---|---|---|---|---|---|
| TDG/generatedefects.py:44-46 | for a collection name that already exists, `col_ref` is the name string itself, so `col_ref.objects.link` raises AttributeError | `copy_object(obj, "Defects")` when a collection "Defects" exists | link the copy into the existing collection of that name, as for a new name | not executed | GenerateDefects.CopyIntoExistingNameFails | GenerateDefects.ResolveCollection |
