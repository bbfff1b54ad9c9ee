/** The light part of the BlenderProc run configuration: `change_light_params`
    rewrites the light's location, rotation and energy in a fixed template
    with three regular-expression substitutions. The pattern of each is a key
    followed by `.*`, and `.` never matches a newline, so every match lies
    inside one line; the model therefore substitutes line by line. */
module LightConfig {
  import opened Wrappers
  import opened Text

  const Newline: char := '\n'

  /** `CONFIG_BASE_CONTENT`, the template every configuration is made from. */
  const ConfigBaseContent: string :=
    "{\n" +
    "  \"version\": 3,\n" +
    "  \"setup\": {\n" +
    "    \"blender_install_path\": \"/home_local/HiWi2/blender/\",\n" +
    "    \"pip\": [\n" +
    "      \"h5py\",\n" +
    "      \"scikit-image\"\n" +
    "    ]\n" +
    "  },\n" +
    "  \"modules\": [\n" +
    "    {\n" +
    "      \"module\": \"main.Initializer\",\n" +
    "      \"config\": {\n" +
    "        \"global\": {\n" +
    "          \"output_dir\": \"<args:2>\",\n" +
    "          \"max_bounces\": 5,\n" +
    "          \"diffuse_bounces\": 5,\n" +
    "          \"glossy_bounces\": 5,\n" +
    "          \"transmission_bounces\": 0,\n" +
    "          \"transparency_bounces\": 0\n" +
    "        }\n" +
    "      }\n" +
    "    },\n" +
    "    {\n" +
    "      \"module\": \"loader.BlendLoader\",\n" +
    "      \"config\": {\n" +
    "        \"path\": \"<args:1>\"\n" +
    "      }\n" +
    "    },\n" +
    "    {\n" +
    "      \"module\": \"manipulators.WorldManipulator\",\n" +
    "      \"config\": {\n" +
    "        \"cf_set_world_category_id\": 0  # this sets the worlds background category id to 0\n" +
    "      }\n" +
    "    },\n" +
    "    {\n" +
    "      \"module\": \"lighting.LightLoader\",\n" +
    "      \"config\": {\n" +
    "        \"lights\": [\n" +
    "          {\n" +
    "            \"type\": \"AREA\",\n" +
    "            \"location\": [0, 0, 0],\n" +
    "            \"rotation\": [0, 0, 0],\n" +
    "            \"energy\": 140000\n" +
    "          }\n" +
    "        ]\n" +
    "      }\n" +
    "    },\n" +
    "    {\n" +
    "      \"module\": \"camera.CameraLoader\",\n" +
    "      \"config\": {\n" +
    "        \"path\": \"<args:0>\",\n" +
    "        \"file_format\": \"location rotation/value\",\n" +
    "        \"intrinsics\": {\n" +
    "          \"fov\": 1.5708,\n" +
    "          \"resolution_x\": 400,\n" +
    "          \"resolution_y\": 400\n" +
    "        }\n" +
    "      }\n" +
    "    },\n" +
    "    {\n" +
    "      \"module\": \"renderer.RgbRenderer\",\n" +
    "      \"config\": {\n" +
    "        \"output_key\": \"colors\",\n" +
    "      }\n" +
    "    },\n" +
    "    {\n" +
    "      \"module\": \"renderer.SegMapRenderer\",\n" +
    "      \"config\": {\n" +
    "        \"map_by\": [\"class\",\"instance\", \"name\"]\n" +
    "      }\n" +
    "    },\n" +
    "    {\n" +
    "      \"module\": \"writer.Hdf5Writer\",\n" +
    "      \"config\": {\n" +
    "        \"postprocessing_modules\": {\n" +
    "          \"distance\": [\n" +
    "          {\"module\": \"postprocessing.TrimRedundantChannels\"},\n" +
    "          {\"module\": \"postprocessing.Dist2Depth\"}\n" +
    "          ]\n" +
    "        }\n" +
    "      }\n" +
    "    }\n" +
    "  ]\n" +
    "}\n"

  // ---------------------------------------------------------------------
  // The three patterns
  // ---------------------------------------------------------------------

  /** `KEY\[.*\]` (a key ending in `[`, anything, a closing `]`) or `KEY.*`. */
  datatype Pattern = Bracketed(key: string) | ToLineEnd(key: string)

  /** `RE_LOC`, `RE_ROT` and `RE_ENERGY`. */
  const LocPattern: Pattern := Bracketed("\"location\": [")
  const RotPattern: Pattern := Bracketed("\"rotation\": [")
  const EnergyPattern: Pattern := ToLineEnd("\"energy\": ")

  /** The pattern matches `line[i..e]`. */
  predicate Matches(line: string, p: Pattern, i: int, e: int) {
    && 0 <= i && i + |p.key| <= e <= |line|
    && p.key <= line[i..]
    && Newline !in line[i..e]
    && (p.Bracketed? ==> i + |p.key| < e && line[e - 1] == ']')
  }

  /** The match `re.sub` replaces: the leftmost start, and there the longest
      (greedy `.*`). */
  predicate FirstMatch(line: string, p: Pattern, i: int, e: int) {
    && Matches(line, p, i, e)
    && forall j, f :: 0 <= j <= f <= |line| && Matches(line, p, j, f) ==> i < j || (i == j && f <= e)
  }

  predicate NoMatch(line: string, p: Pattern) {
    forall j, f :: 0 <= j <= f <= |line| ==> !Matches(line, p, j, f)
  }

  // ---------------------------------------------------------------------
  // Searching a line
  // ---------------------------------------------------------------------

  /** The first index at or after `from` where `t` occurs in `s`. */
  function FindFrom(s: string, t: string, from: nat): (r: Option<nat>)
    requires from <= |s|
    ensures r.Some? ==> from <= r.value && r.value + |t| <= |s| && t <= s[r.value..]
    ensures r.Some? ==> forall j :: from <= j < r.value ==> !(t <= s[j..])
    ensures r.None? ==> forall j :: from <= j <= |s| ==> !(t <= s[j..])
    decreases |s| - from
  {
    if t <= s[from..] then Some(from)
    else if from == |s| then None
    else FindFrom(s, t, from + 1)
  }

  /** The index of the last `c` in `s`. */
  function LastIndexOf(s: string, c: char): (r: Option<nat>)
    ensures r.Some? ==> r.value < |s| && s[r.value] == c && forall k :: r.value < k < |s| ==> s[k] != c
    ensures r.None? ==> c !in s
    decreases |s|
  {
    if s == [] then None
    else if s[|s| - 1] == c then Some(|s| - 1)
    else LastIndexOf(s[..|s| - 1], c)
  }

  // ---------------------------------------------------------------------
  // One line
  // ---------------------------------------------------------------------

  /** Every match starts at an occurrence of the key. */
  lemma MatchesAtKey(line: string, p: Pattern)
    ensures forall j, f :: 0 <= j <= f <= |line| && Matches(line, p, j, f) ==>
              0 <= j <= |line| && p.key <= line[j..]
  {
  }

  /** Without an occurrence of the key there is no match. */
  lemma NoKeyNoMatch(line: string, p: Pattern)
    requires forall j :: 0 <= j <= |line| ==> !(p.key <= line[j..])
    ensures NoMatch(line, p)
  {
    MatchesAtKey(line, p);
  }

  /** A bracketed match ends just after a `]` that lies past the key. */
  lemma BracketedMatchEnds(line: string, p: Pattern)
    requires p.Bracketed?
    ensures forall j, f :: 0 <= j <= f <= |line| && Matches(line, p, j, f) ==>
              j + |p.key| <= f - 1 < |line| && line[f - 1] == ']'
  {
  }

  /** `KEY.*` matches from the first key to the end of the line. */
  lemma ToLineEndFirst(line: string, p: Pattern, i: nat)
    requires p.ToLineEnd? && Newline !in line
    requires i + |p.key| <= |line| && p.key <= line[i..]
    requires forall j :: 0 <= j < i ==> !(p.key <= line[j..])
    ensures FirstMatch(line, p, i, |line|)
  {
    MatchesAtKey(line, p);
  }

  /** `KEY[.*]` matches from the first key to the last `]`, when that `]`
      lies past the key. */
  lemma BracketedFirst(line: string, p: Pattern, i: nat, k: nat)
    requires p.Bracketed? && Newline !in line
    requires i + |p.key| <= k < |line| && p.key <= line[i..] && line[k] == ']'
    requires forall j :: 0 <= j < i ==> !(p.key <= line[j..])
    requires forall m :: k < m < |line| ==> line[m] != ']'
    ensures FirstMatch(line, p, i, k + 1)
  {
    MatchesAtKey(line, p);
    BracketedMatchEnds(line, p);
  }

  /** Without a `]` past the first key, `KEY[.*]` does not match. */
  lemma BracketedNone(line: string, p: Pattern, i: nat)
    requires p.Bracketed? && i <= |line|
    requires forall j :: 0 <= j < i ==> !(p.key <= line[j..])
    requires forall m :: i + |p.key| <= m < |line| ==> line[m] != ']'
    ensures NoMatch(line, p)
  {
    MatchesAtKey(line, p);
    BracketedMatchEnds(line, p);
  }

  /** `KEY[.*]` has no match in a tail of the line without a `]`. */
  lemma NoBracketNoMatch(line: string, p: Pattern, from: nat)
    requires p.Bracketed? && from <= |line|
    requires forall m :: from <= m < |line| ==> line[m] != ']'
    ensures NoMatch(line[from..], p)
  {
    var t := line[from..];
    BracketedMatchEnds(t, p);
    assert forall m :: 0 <= m < |t| ==> t[m] == line[from + m];
  }

  /** Cutting a newline-free line and inserting a newline-free text gives a
      newline-free line. */
  lemma SpliceKeepsLine(line: string, i: nat, e: nat, subst: string)
    requires i <= e <= |line| && Newline !in line
    ensures Newline !in subst ==> Newline !in line[..i] + subst + line[e..]
  {
    assert forall c :: c in line[..i] ==> c in line;
    assert forall c :: c in line[e..] ==> c in line;
  }

  /** One line after the substitution: the first match replaced by `subst`,
      or the line itself when the pattern does not match. What follows the
      first match holds no second one (for a non-empty key), since the first
      runs to the last `]` or to the end of the line, so replacing the first
      match is replacing every match. */
  function SubLine(line: string, p: Pattern, subst: string): (r: string)
    requires Newline !in line
    ensures NoMatch(line, p) ==> r == line
    ensures !NoMatch(line, p) ==>
              exists i, e :: FirstMatch(line, p, i, e) && r == line[..i] + subst + line[e..]
                             && (p.key != [] ==> NoMatch(line[e..], p))
    ensures Newline !in subst ==> Newline !in r
  {
    var first := FindFrom(line, p.key, 0);
    if first.None? then
      NoKeyNoMatch(line, p);
      line
    else
      var i := first.value;
      if p.ToLineEnd? then
        ToLineEndFirst(line, p, i);
        var r := line[..i] + subst + line[|line|..];
        SpliceKeepsLine(line, i, |line|, subst);
        assert p.key != [] ==> NoMatch(line[|line|..], p);
        assert FirstMatch(line, p, i, |line|) && r == line[..i] + subst + line[|line|..];
        r
      else
        var last := LastIndexOf(line, ']');
        if last.Some? && last.value >= i + |p.key| then
          var k := last.value;
          BracketedFirst(line, p, i, k);
          var r := line[..i] + subst + line[k + 1..];
          SpliceKeepsLine(line, i, k + 1, subst);
          NoBracketNoMatch(line, p, k + 1);
          assert FirstMatch(line, p, i, k + 1) && r == line[..i] + subst + line[k + 1..];
          r
        else
          BracketedNone(line, p, i);
          line
  }

  /** A line that does not hold the key is left alone. */
  lemma KeylessLineUnchanged(line: string, p: Pattern, subst: string)
    requires Newline !in line && !Contains(line, p.key)
    ensures SubLine(line, p, subst) == line
  {
    NoKeyNoMatch(line, p);
  }

  // ---------------------------------------------------------------------
  // The whole text
  // ---------------------------------------------------------------------

  function Lines(text: string): (ls: seq<string>)
    ensures |ls| >= 1 && forall k :: 0 <= k < |ls| ==> Newline !in ls[k]
  {
    SplitOn(text, Newline)
  }

  /** `re.sub(pattern, subst, text, 0, re.MULTILINE)`. */
  function SubAll(text: string, p: Pattern, subst: string): string {
    var ls := Lines(text);
    JoinOn(seq(|ls|, k requires 0 <= k < |ls| => SubLine(ls[k], p, subst)), Newline)
  }

  /** Without a newline in the substitute, a pass keeps the line structure:
      line k afterwards is line k before with its first match replaced. */
  lemma SubAllLines(text: string, p: Pattern, subst: string)
    requires Newline !in subst
    ensures |Lines(SubAll(text, p, subst))| == |Lines(text)|
    ensures forall k :: 0 <= k < |Lines(text)| ==>
              Lines(SubAll(text, p, subst))[k] == SubLine(Lines(text)[k], p, subst)
  {
    var ls := Lines(text);
    var out := seq(|ls|, k requires 0 <= k < |ls| => SubLine(ls[k], p, subst));
    SplitJoin(out, Newline);
  }

  /** A pass changes nothing when no line holds the key. */
  lemma SubAllWithoutKey(text: string, p: Pattern, subst: string)
    requires !Contains(text, p.key)
    ensures SubAll(text, p, subst) == text
  {
    var ls := Lines(text);
    forall k | 0 <= k < |ls| ensures SubLine(ls[k], p, subst) == ls[k] {
      LineOfText(text, k);
      if Contains(ls[k], p.key) {
        assert false;
      }
      KeylessLineUnchanged(ls[k], p, subst);
    }
    var out := seq(|ls|, k requires 0 <= k < |ls| => SubLine(ls[k], p, subst));
    assert out == ls;
    JoinSplit(text, Newline);
  }

  /** Any substring of a line is a substring of the text. */
  lemma LineOfText(text: string, k: nat)
    requires k < |Lines(text)|
    ensures forall t :: Contains(Lines(text)[k], t) ==> Contains(text, t)
  {
    JoinSplit(text, Newline);
    JoinedPartsContained(Lines(text), k);
  }

  /** A part of a join sits inside the joined text. */
  lemma {:induction false} JoinedPartsContained(parts: seq<string>, k: nat)
    requires |parts| >= 1 && k < |parts|
    ensures forall t :: Contains(parts[k], t) ==> Contains(JoinOn(parts, Newline), t)
    decreases |parts|
  {
    forall t | Contains(parts[k], t) ensures Contains(JoinOn(parts, Newline), t) {
      if |parts| == 1 {
        ContainsInContext([], parts[0], [], t);
        assert [] + parts[0] + [] == parts[0];
      } else if k == 0 {
        ContainsInContext([], parts[0], [Newline] + JoinOn(parts[1..], Newline), t);
        assert [] + parts[0] + ([Newline] + JoinOn(parts[1..], Newline)) == JoinOn(parts, Newline);
      } else {
        JoinedPartsContained(parts[1..], k - 1);
        ContainsInContext(parts[0] + [Newline], JoinOn(parts[1..], Newline), [], t);
        assert parts[0] + [Newline] + JoinOn(parts[1..], Newline) + [] == JoinOn(parts, Newline);
      }
    }
  }

  // ---------------------------------------------------------------------
  // change_light_params
  // ---------------------------------------------------------------------

  /** No character that `re.sub` would read as an escape in a replacement. */
  predicate LiteralReplacement(s: string) {
    '\\' !in s
  }

  /** The three substitutions of `change_light_params`, in order, on any text. */
  function LightPasses(text: string, lightLoc: string, lightRot: string, energy: string): string {
    var withLoc := SubAll(text, LocPattern, "\"location\": " + lightLoc);
    var withRot := SubAll(withLoc, RotPattern, "\"rotation\": " + lightRot);
    SubAll(withRot, EnergyPattern, "\"energy\": " + energy)
  }

  /** The text `change_light_params` writes to the configuration file. The
      `configContent` argument is accepted and never read: the substitutions
      always start from the template. */
  function ChangeLightParams(configContent: string, lightLoc: string, lightRot: string, energy: string): string
    requires LiteralReplacement(lightLoc) && LiteralReplacement(lightRot) && LiteralReplacement(energy)
  {
    LightPasses(ConfigBaseContent, lightLoc, lightRot, energy)
  }

  /** The three substitutions applied to one line. */
  function LightLine(line: string, lightLoc: string, lightRot: string, energy: string): string
    requires Newline !in line && Newline !in lightLoc && Newline !in lightRot
  {
    var a := SubLine(line, LocPattern, "\"location\": " + lightLoc);
    var b := SubLine(a, RotPattern, "\"rotation\": " + lightRot);
    SubLine(b, EnergyPattern, "\"energy\": " + energy)
  }

  /** A line holding none of the three keys passes through unchanged. */
  lemma KeylessLightLine(line: string, lightLoc: string, lightRot: string, energy: string)
    requires Newline !in line && Newline !in lightLoc && Newline !in lightRot
    requires !Contains(line, LocPattern.key) && !Contains(line, RotPattern.key) && !Contains(line, EnergyPattern.key)
    ensures LightLine(line, lightLoc, lightRot, energy) == line
  {
    KeylessLineUnchanged(line, LocPattern, "\"location\": " + lightLoc);
    KeylessLineUnchanged(line, RotPattern, "\"rotation\": " + lightRot);
    KeylessLineUnchanged(line, EnergyPattern, "\"energy\": " + energy);
  }

  /** With newline-free values the passes keep the lines of the text and
      rewrite each on its own. */
  lemma LightPassesLines(text: string, lightLoc: string, lightRot: string, energy: string)
    requires Newline !in lightLoc && Newline !in lightRot && Newline !in energy
    ensures |Lines(LightPasses(text, lightLoc, lightRot, energy))| == |Lines(text)|
    ensures forall k :: 0 <= k < |Lines(text)| ==>
              Lines(LightPasses(text, lightLoc, lightRot, energy))[k] == LightLine(Lines(text)[k], lightLoc, lightRot, energy)
  {
    var sLoc, sRot, sEnergy := "\"location\": " + lightLoc, "\"rotation\": " + lightRot, "\"energy\": " + energy;
    assert Newline !in sLoc && Newline !in sRot && Newline !in sEnergy;
    var withLoc := SubAll(text, LocPattern, sLoc);
    var withRot := SubAll(withLoc, RotPattern, sRot);
    SubAllLines(text, LocPattern, sLoc);
    SubAllLines(withLoc, RotPattern, sRot);
    SubAllLines(withRot, EnergyPattern, sEnergy);
  }

  /** The output has the template's lines, each rewritten on its own,
      whatever `configContent` was. */
  lemma ChangeLightParamsLines(configContent: string, lightLoc: string, lightRot: string, energy: string, k: nat)
    requires LiteralReplacement(lightLoc) && LiteralReplacement(lightRot) && LiteralReplacement(energy)
    requires Newline !in lightLoc && Newline !in lightRot && Newline !in energy
    requires k < |Lines(ConfigBaseContent)|
    ensures |Lines(ChangeLightParams(configContent, lightLoc, lightRot, energy))| == |Lines(ConfigBaseContent)|
    ensures Lines(ChangeLightParams(configContent, lightLoc, lightRot, energy))[k] ==
            LightLine(Lines(ConfigBaseContent)[k], lightLoc, lightRot, energy)
  {
    LightPassesLines(ConfigBaseContent, lightLoc, lightRot, energy);
  }
}
