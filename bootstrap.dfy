/**
 * Skill bootstrap of `memora init`: where the skills live, the text of the files generated for
 * a skill, and the pass over the skill catalog that creates, updates or skips each skill's
 * files and records the skills whose files could not be written.
 */
module Bootstrap {
  import opened Wrappers
  import opened Text

  type Env = map<string, string>

  const SkillsDirVar: string := "MEMORA_SKILLS_DIR"
  const CodexHomeVar: string := "CODEX_HOME"

  // ---------------------------------------------------------------- paths

  /** `dir / name` for one path component. */
  function Child(dir: string, name: string): string {
    dir + "/" + name
  }

  /** Everything before the last '/', or "" when there is none. */
  function DirName(p: string): (r: string)
    ensures |r| <= |p|
  {
    if p == [] then []
    else if p[|p| - 1] == '/' then p[..|p| - 1]
    else DirName(p[..|p| - 1])
  }

  /** Everything after the last '/': `Path.name`. */
  function BaseName(p: string): (r: string)
    ensures |r| <= |p|
  {
    if p == [] then []
    else if p[|p| - 1] == '/' then []
    else BaseName(p[..|p| - 1]) + [p[|p| - 1]]
  }

  /** `path.parent.name`. */
  function ParentName(p: string): string {
    BaseName(DirName(p))
  }

  /** A child path splits back into its directory and its name, when the name holds no '/'. */
  lemma {:induction false} ChildParts(dir: string, name: string)
    requires Lacks(name, '/')
    ensures DirName(Child(dir, name)) == dir && BaseName(Child(dir, name)) == name
    decreases |name|
  {
    var p := Child(dir, name);
    if name == [] {
      assert p[..|p| - 1] == dir;
    } else {
      var init := name[..|name| - 1];
      assert p[..|p| - 1] == Child(dir, init);
      assert p[|p| - 1] == name[|name| - 1];
      ChildParts(dir, init);
      assert init + [name[|name| - 1]] == name;
    }
  }

  /**
   * `default_skills_root`: a non-blank `MEMORA_SKILLS_DIR`, else `skills` under a non-blank
   * `CODEX_HOME`, else `.codex/skills` under the home directory. `resolve` is
   * `expanduser().resolve()`, which consults the file system.
   */
  function DefaultSkillsRoot(env: Env, home: string, resolve: string -> string): string {
    if SkillsDirVar in env && !Blank(env[SkillsDirVar]) then resolve(env[SkillsDirVar])
    else if CodexHomeVar in env && !Blank(env[CodexHomeVar]) then resolve(Child(resolve(env[CodexHomeVar]), "skills"))
    else resolve(Child(Child(home, ".codex"), "skills"))
  }

  /**
   * The explicit directory wins over the Codex home, which wins over the home directory; a
   * variable that is unset or only whitespace is passed over.
   */
  lemma DefaultSkillsRootPrecedence(env: Env, home: string, resolve: string -> string)
    ensures var r := DefaultSkillsRoot(env, home, resolve);
      && (SkillsDirVar in env && !Blank(env[SkillsDirVar]) ==> r == resolve(env[SkillsDirVar]))
      && ((SkillsDirVar !in env || Blank(env[SkillsDirVar])) && CodexHomeVar in env && !Blank(env[CodexHomeVar]) ==>
            && r == resolve(resolve(env[CodexHomeVar]) + "/skills")
            && (forall h :: r == DefaultSkillsRoot(env, h, resolve)))
      && ((SkillsDirVar !in env || Blank(env[SkillsDirVar])) && (CodexHomeVar !in env || Blank(env[CodexHomeVar])) ==>
            r == resolve(home + "/.codex/skills"))
  {
    assert Child(Child(home, ".codex"), "skills") == home + "/.codex/skills";
    if CodexHomeVar in env {
      assert Child(resolve(env[CodexHomeVar]), "skills") == resolve(env[CodexHomeVar]) + "/skills";
    }
  }

  // ---------------------------------------------------------------- generated text

  const Fence: string := "---"
  const NameKey: string := "name: "
  const DescriptionKey: string := "description: "
  const VersionLine: string := "version: 1"
  const InterfaceLine: string := "interface:"
  const DisplayNameKey: string := "  display_name: "
  const ShortDescriptionKey: string := "  short_description: "
  const DefaultPromptKey: string := "  default_prompt: "
  const DefaultPrompt: string := "Guide me through this memora workflow."

  /** `_skill_header`: the front matter of SKILL.md. */
  function SkillHeader(name: string, description: string): string {
    Fence + "\n" + NameKey + name + "\n" + DescriptionKey + description + "\n" + Fence + "\n\n"
  }

  /** `_skill_openai_yaml`: the agent interface file. */
  function OpenAiYaml(name: string, shortDescription: string, defaultPrompt: string): string {
    VersionLine + "\n" + InterfaceLine + "\n" + DisplayNameKey + name + "\n"
    + ShortDescriptionKey + shortDescription + "\n" + DefaultPromptKey + defaultPrompt + "\n"
  }

  /** The display name of a skill: `name.replace("-", " ").title()`. */
  function DisplayName(name: string): (r: string)
    ensures |r| == |name|
  {
    Title(ReplaceChar(name, '-', ' '))
  }

  const QuickstartTitle: string := "# "
  const QuickstartNote: string := "\n\nThis skill was generated by `memora init`.\nEdit this file with team-specific examples.\n"

  /** The text of references/quickstart.md. */
  function Quickstart(name: string): string {
    QuickstartTitle + name + QuickstartNote
  }

  lemma NoLineBreakJoin(a: string, b: string)
    requires NoLineBreak(a) && NoLineBreak(b)
    ensures NoLineBreak(a + b)
  {
    assert forall k | 0 <= k < |a + b| :: (a + b)[k] == if k < |a| then a[k] else b[k - |a|];
  }

  lemma HeaderKeysHaveNoLineBreak()
    ensures NoLineBreak(Fence) && NoLineBreak(NameKey) && NoLineBreak(DescriptionKey) && NoLineBreak("")
  {
  }

  lemma YamlLinesHaveNoLineBreak()
    ensures NoLineBreak(VersionLine) && NoLineBreak(InterfaceLine)
  {
  }

  lemma YamlKeysHaveNoLineBreak()
    ensures NoLineBreak(DisplayNameKey) && NoLineBreak(ShortDescriptionKey) && NoLineBreak(DefaultPromptKey)
  {
  }

  /** Five lines joined and terminated by newlines. */
  lemma JoinFive(a: string, b: string, c: string, d: string, e: string)
    ensures Join("\n", [a, b, c, d, e]) + "\n" == a + "\n" + (b + "\n" + (c + "\n" + (d + "\n" + (e + "\n"))))
  {
    var s := [a, b, c, d, e];
    assert s[1..] == [b, c, d, e];
    assert s[1..][1..] == [c, d, e];
    assert s[1..][1..][1..] == [d, e];
    assert s[1..][1..][1..][1..] == [e];
    assert Join("\n", [e]) == e;
    assert Join("\n", [d, e]) == d + "\n" + e;
    assert Join("\n", [c, d, e]) == c + "\n" + (d + "\n" + e);
    assert Join("\n", [b, c, d, e]) == b + "\n" + (c + "\n" + (d + "\n" + e));
  }

  /** Five lines, each ended by a newline, read back as those five lines. */
  lemma FiveLines(a: string, b: string, c: string, d: string, e: string)
    requires NoLineBreak(a) && NoLineBreak(b) && NoLineBreak(c) && NoLineBreak(d) && NoLineBreak(e)
    ensures SplitLines(a + "\n" + (b + "\n" + (c + "\n" + (d + "\n" + (e + "\n"))))) == [a, b, c, d, e]
  {
    SplitLinesTerminated([a, b, c, d, e]);
    JoinFive(a, b, c, d, e);
  }

  lemma HeaderNested(name: string, description: string)
    ensures SkillHeader(name, description)
         == Fence + "\n" + ((NameKey + name) + "\n" + ((DescriptionKey + description) + "\n" + (Fence + "\n" + ("" + "\n"))))
  {
  }

  lemma YamlNested(name: string, shortDescription: string, defaultPrompt: string)
    ensures OpenAiYaml(name, shortDescription, defaultPrompt)
         == VersionLine + "\n" + (InterfaceLine + "\n" + ((DisplayNameKey + name) + "\n"
            + ((ShortDescriptionKey + shortDescription) + "\n" + ((DefaultPromptKey + defaultPrompt) + "\n"))))
  {
    Nest(VersionLine, InterfaceLine, DisplayNameKey, name, ShortDescriptionKey, shortDescription, DefaultPromptKey, defaultPrompt);
  }

  lemma Nest(x1: string, x2: string, x3: string, x4: string, x5: string, x6: string, x7: string, x8: string)
    ensures x1 + "\n" + x2 + "\n" + x3 + x4 + "\n" + x5 + x6 + "\n" + x7 + x8 + "\n"
         == x1 + "\n" + (x2 + "\n" + ((x3 + x4) + "\n" + ((x5 + x6) + "\n" + ((x7 + x8) + "\n"))))
  {
  }

  /**
   * The front matter reads back, line by line, as the opening fence, the name, the description,
   * the closing fence and an empty line, when neither value holds a line break.
   */
  lemma SkillHeaderLines(name: string, description: string)
    requires NoLineBreak(name) && NoLineBreak(description)
    ensures SplitLines(SkillHeader(name, description)) == [Fence, NameKey + name, DescriptionKey + description, Fence, ""]
  {
    HeaderKeysHaveNoLineBreak();
    NoLineBreakJoin(NameKey, name);
    NoLineBreakJoin(DescriptionKey, description);
    FiveLines(Fence, NameKey + name, DescriptionKey + description, Fence, "");
    HeaderNested(name, description);
  }

  /**
   * The agent interface file reads back as the version line, the interface line and the three
   * indented fields, when no value holds a line break.
   */
  lemma OpenAiYamlLines(name: string, shortDescription: string, defaultPrompt: string)
    requires NoLineBreak(name) && NoLineBreak(shortDescription) && NoLineBreak(defaultPrompt)
    ensures SplitLines(OpenAiYaml(name, shortDescription, defaultPrompt))
         == [VersionLine, InterfaceLine, DisplayNameKey + name, ShortDescriptionKey + shortDescription,
             DefaultPromptKey + defaultPrompt]
  {
    YamlLinesHaveNoLineBreak();
    YamlKeysHaveNoLineBreak();
    NoLineBreakJoin(DisplayNameKey, name);
    NoLineBreakJoin(ShortDescriptionKey, shortDescription);
    NoLineBreakJoin(DefaultPromptKey, defaultPrompt);
    FiveLines(VersionLine, InterfaceLine, DisplayNameKey + name, ShortDescriptionKey + shortDescription, DefaultPromptKey + defaultPrompt);
    YamlNested(name, shortDescription, defaultPrompt);
  }

  // ---------------------------------------------------------------- the files of one skill


  /** One catalog entry; `scripts` is the script dictionary in insertion order. */
  datatype Skill = Skill(name: string, description: string, body: string,
                         scripts: seq<(string, string)>, prompt: Option<string>)

  function SkillDir(root: string, name: string): string { Child(root, name) }
  function ScriptsDir(root: string, name: string): string { Child(SkillDir(root, name), "scripts") }
  function ReferencesDir(root: string, name: string): string { Child(SkillDir(root, name), "references") }
  function AgentsDir(root: string, name: string): string { Child(SkillDir(root, name), "agents") }
  function SkillFile(root: string, name: string): string { Child(SkillDir(root, name), "SKILL.md") }
  function AgentFile(root: string, name: string): string { Child(AgentsDir(root, name), "openai.yaml") }
  function QuickstartFile(root: string, name: string): string { Child(ReferencesDir(root, name), "quickstart.md") }

  /** The directories made for a skill, in the order they are made. */
  function SkillDirs(root: string, name: string): seq<string> {
    [SkillDir(root, name), ScriptsDir(root, name), ReferencesDir(root, name), AgentsDir(root, name)]
  }

  /** The keys of an insertion-ordered dictionary, held as its entries in order. */
  function Keys(entries: seq<(string, string)>): set<string> {
    if entries == [] then {} else {entries[0].0} + Keys(entries[1..])
  }

  predicate DistinctKeys(entries: seq<(string, string)>) {
    forall i, j | 0 <= i < j < |entries| :: entries[i].0 != entries[j].0
  }

  /** What the dictionary maps each key to. */
  function MapOf(entries: seq<(string, string)>): (m: map<string, string>)
    ensures m.Keys == Keys(entries)
  {
    if entries == [] then map[] else map[entries[0].0 := entries[0].1] + MapOf(entries[1..])
  }

  lemma {:induction false} KeysIn(entries: seq<(string, string)>, k: string)
    ensures k in Keys(entries) <==> exists i | 0 <= i < |entries| :: entries[i].0 == k
  {
    if entries != [] {
      KeysIn(entries[1..], k);
      if k in Keys(entries[1..]) {
        var i :| 0 <= i < |entries[1..]| && entries[1..][i].0 == k;
        assert entries[i + 1].0 == k;
      }
      if exists i | 0 <= i < |entries| :: entries[i].0 == k {
        var i :| 0 <= i < |entries| && entries[i].0 == k;
        if i > 0 {
          assert entries[1..][i - 1].0 == k;
        }
      }
    }
  }

  /** `d[k] = v` on an insertion-ordered dictionary: a new key goes last, a known key keeps its place. */
  function Put(entries: seq<(string, string)>, k: string, v: string): (r: seq<(string, string)>)
    requires DistinctKeys(entries)
    ensures DistinctKeys(r)
    ensures MapOf(r) == MapOf(entries)[k := v]
    ensures |entries| <= |r|
    ensures forall i | 0 <= i < |entries| && entries[i].0 != k :: r[i] == entries[i]
  {
    if entries == [] then [(k, v)]
    else if entries[0].0 == k then
      PutFirst(entries, v);
      [(k, v)] + entries[1..]
    else
      var rest := Put(entries[1..], k, v);
      PutLater(entries, rest, k, v);
      [entries[0]] + rest
  }

  lemma PutFirst(entries: seq<(string, string)>, v: string)
    requires entries != [] && DistinctKeys(entries)
    ensures var r := [(entries[0].0, v)] + entries[1..];
      DistinctKeys(r) && MapOf(r) == MapOf(entries)[entries[0].0 := v]
  {
    var k := entries[0].0;
    var r := [(k, v)] + entries[1..];
    assert r[1..] == entries[1..];
    KeysIn(entries[1..], k);
    assert k !in MapOf(entries[1..]);
    assert MapOf(r) == map[k := v] + MapOf(entries[1..]);
    UnionOverride(k, entries[0].1, v, MapOf(entries[1..]));
    forall i, j | 0 <= i < j < |r| ensures r[i].0 != r[j].0 {
      assert r[j] == entries[j];
      if i > 0 {
        assert r[i] == entries[i];
      }
    }
  }

  /** Updating the key of a singleton that the right side lacks updates the union. */
  lemma UnionOverride(k: string, x: string, v: string, m: map<string, string>)
    requires k !in m
    ensures (map[k := x] + m)[k := v] == map[k := v] + m
  {
  }

  lemma PutLater(entries: seq<(string, string)>, rest: seq<(string, string)>, k: string, v: string)
    requires entries != [] && DistinctKeys(entries) && entries[0].0 != k
    requires DistinctKeys(rest) && MapOf(rest) == MapOf(entries[1..])[k := v]
    ensures var r := [entries[0]] + rest;
      DistinctKeys(r) && MapOf(r) == MapOf(entries)[k := v]
  {
    PutLaterDistinct(entries, rest, k, v);
    var r := [entries[0]] + rest;
    assert r[1..] == rest;
    assert MapOf(r) == map[entries[0].0 := entries[0].1] + MapOf(rest);
    UnionUpdate(entries[0].0, entries[0].1, MapOf(entries[1..]), k, v);
  }

  lemma PutLaterDistinct(entries: seq<(string, string)>, rest: seq<(string, string)>, k: string, v: string)
    requires entries != [] && DistinctKeys(entries) && entries[0].0 != k
    requires DistinctKeys(rest) && MapOf(rest) == MapOf(entries[1..])[k := v]
    ensures DistinctKeys([entries[0]] + rest)
  {
    var r := [entries[0]] + rest;
    KeysIn(entries[1..], entries[0].0);
    assert entries[0].0 !in MapOf(rest);
    forall j | 0 < j < |r| ensures r[0].0 != r[j].0 {
      KeysIn(rest, r[j].0);
      assert rest[j - 1] == r[j];
    }
  }

  /** A right-biased union followed by an update is the union with the updated right side. */
  lemma UnionUpdate(a: string, x: string, m: map<string, string>, k: string, v: string)
    ensures map[a := x] + m[k := v] == (map[a := x] + m)[k := v]
  {
  }

  /** What the script dictionary contributes to `files_to_write`: a later script of the same name wins. */
  function ScriptMap(dir: string, scripts: seq<(string, string)>): (m: map<string, string>)
    ensures forall p | p in m :: StartsWith(p, dir + "/")
  {
    if scripts == [] then map[]
    else
      assert Child(dir, scripts[0].0)[..|dir + "/"|] == dir + "/";
      map[Child(dir, scripts[0].0) := scripts[0].1] + ScriptMap(dir, scripts[1..])
  }

  /** The scripts stored one `d[k] = v` each, in order, after `entries`. */
  function PutScripts(entries: seq<(string, string)>, dir: string, scripts: seq<(string, string)>): (r: seq<(string, string)>)
    requires DistinctKeys(entries)
    ensures DistinctKeys(r)
    ensures |entries| <= |r|
    decreases |scripts|
  {
    if scripts == [] then entries
    else PutScripts(Put(entries, Child(dir, scripts[0].0), scripts[0].1), dir, scripts[1..])
  }

  lemma MapUpdateUnion(m: map<string, string>, k: string, v: string, n: map<string, string>)
    ensures m[k := v] + n == m + (map[k := v] + n)
  {
  }

  /**
   * Storing the scripts maps each script path to its last content, over what `entries` maps,
   * and leaves in place every entry that is not under `dir`.
   */
  lemma {:induction false} PutScriptsFacts(entries: seq<(string, string)>, dir: string, scripts: seq<(string, string)>)
    requires DistinctKeys(entries)
    ensures var r := PutScripts(entries, dir, scripts);
      && MapOf(r) == MapOf(entries) + ScriptMap(dir, scripts)
      && forall i | 0 <= i < |entries| && !StartsWith(entries[i].0, dir + "/") :: r[i] == entries[i]
    decreases |scripts|
  {
    if scripts != [] {
      var k := Child(dir, scripts[0].0);
      assert k[..|dir + "/"|] == dir + "/";
      var next := Put(entries, k, scripts[0].1);
      PutScriptsFacts(next, dir, scripts[1..]);
      MapUpdateUnion(MapOf(entries), k, scripts[0].1, ScriptMap(dir, scripts[1..]));
    }
  }

  lemma MapOfThree(e0: (string, string), e1: (string, string), e2: (string, string))
    requires e0.0 != e1.0 && e0.0 != e2.0 && e1.0 != e2.0
    ensures MapOf([e0, e1, e2]) == map[e0.0 := e0.1, e1.0 := e1.1, e2.0 := e2.1]
  {
    var es := [e0, e1, e2];
    assert es[1..] == [e1, e2] && es[1..][1..] == [e2];
    assert MapOf([e2]) == map[e2.0 := e2.1];
    assert MapOf([e1, e2]) == map[e1.0 := e1.1] + map[e2.0 := e2.1];
  }

  /** The text of SKILL.md: the front matter, then the body. */
  function SkillText(s: Skill): string {
    SkillHeader(s.name, s.description) + s.body
  }

  /** The text of agents/openai.yaml; the prompt defaults when the catalog gives none. */
  function AgentText(s: Skill): string {
    OpenAiYaml(DisplayName(s.name), s.description, s.prompt.GetOr(DefaultPrompt))
  }

  /** The three files every skill has, in the order they are written. */
  function FixedFiles(root: string, s: Skill): seq<(string, string)> {
    [(SkillFile(root, s.name), SkillText(s)),
     (AgentFile(root, s.name), AgentText(s)),
     (QuickstartFile(root, s.name), Quickstart(s.name))]
  }

  /** `files_to_write`: SKILL.md, the agent file, the quickstart, then each script. */
  function FilesToWrite(root: string, s: Skill): seq<(string, string)> {
    FixedFilesDistinct(root, s);
    PutScripts(FixedFiles(root, s), ScriptsDir(root, s.name), s.scripts)
  }

  /** The three fixed files live in three different places, none of them under scripts/. */
  lemma FixedFilesApart(root: string, name: string)
    ensures var d := SkillDir(root, name) + "/";
      && SkillFile(root, name)[|d|] == 'S'
      && AgentFile(root, name)[|d|] == 'a'
      && QuickstartFile(root, name)[|d|] == 'r'
      && (ScriptsDir(root, name) + "/")[|d|] == 's'
      && |d| < |ScriptsDir(root, name) + "/"|
  {
    var d := SkillDir(root, name) + "/";
    assert SkillFile(root, name) == d + "SKILL.md";
    assert AgentFile(root, name) == d + "agents" + "/" + "openai.yaml";
    assert QuickstartFile(root, name) == d + "references" + "/" + "quickstart.md";
    assert ScriptsDir(root, name) + "/" == d + "scripts" + "/";
  }

  /** A path whose character at `i` differs from that of `dir + "/"` does not lie under `dir`. */
  lemma NotUnder(p: string, dir: string, i: nat)
    requires i < |p| && i < |dir + "/"| && p[i] != (dir + "/")[i]
    ensures !StartsWith(p, dir + "/")
  {
  }

  lemma FixedFilesDistinct(root: string, s: Skill)
    ensures DistinctKeys(FixedFiles(root, s))
    ensures forall i | 0 <= i < 3 :: !StartsWith(FixedFiles(root, s)[i].0, ScriptsDir(root, s.name) + "/")
  {
    var d := SkillDir(root, s.name) + "/";
    var dir := ScriptsDir(root, s.name);
    FixedFilesApart(root, s.name);
    NotUnder(SkillFile(root, s.name), dir, |d|);
    NotUnder(AgentFile(root, s.name), dir, |d|);
    NotUnder(QuickstartFile(root, s.name), dir, |d|);
  }

  /** SKILL.md is not among the scripts. */
  lemma SkillFileNotScript(root: string, s: Skill)
    ensures SkillFile(root, s.name) !in ScriptMap(ScriptsDir(root, s.name), s.scripts)
  {
    var d := SkillDir(root, s.name) + "/";
    FixedFilesApart(root, s.name);
    NotUnder(SkillFile(root, s.name), ScriptsDir(root, s.name), |d|);
  }

  /** The three fixed files are written first, in order, and no path is written twice. */
  lemma FilesToWriteOrder(root: string, s: Skill)
    ensures var files := FilesToWrite(root, s);
      DistinctKeys(files) && |files| >= 3 && files[..3] == FixedFiles(root, s)
  {
    var fixed := FixedFiles(root, s);
    FixedFilesDistinct(root, s);
    PutScriptsFacts(fixed, ScriptsDir(root, s.name), s.scripts);
  }

  /**
   * What `files_to_write` maps each path to: SKILL.md is the front matter followed by the body,
   * the agent file and the quickstart are generated, and every script goes under scripts/,
   * a later script of the same name replacing an earlier one.
   */
  lemma FilesToWriteContents(root: string, s: Skill)
    ensures MapOf(FilesToWrite(root, s))
         == map[SkillFile(root, s.name) := SkillText(s),
                AgentFile(root, s.name) := AgentText(s),
                QuickstartFile(root, s.name) := Quickstart(s.name)]
            + ScriptMap(ScriptsDir(root, s.name), s.scripts)
  {
    var fixed := FixedFiles(root, s);
    FixedFilesDistinct(root, s);
    PutScriptsFacts(fixed, ScriptsDir(root, s.name), s.scripts);
    MapOfThree(fixed[0], fixed[1], fixed[2]);
  }

  /** SKILL.md is written with the front matter followed by the body. */
  lemma SkillFileContents(root: string, s: Skill)
    ensures SkillFile(root, s.name) in MapOf(FilesToWrite(root, s))
    ensures MapOf(FilesToWrite(root, s))[SkillFile(root, s.name)] == SkillHeader(s.name, s.description) + s.body
  {
    FilesToWriteContents(root, s);
    SkillFileNotScript(root, s);
  }

  // ---------------------------------------------------------------- the file system under the root

  /** The directories, the file contents and the file modes set by `chmod`. */
  datatype Tree = Tree(dirs: set<string>, files: map<string, string>, modes: map<string, int>)

  /** `0o755`. */
  const ScriptMode: int := 0x1ED
  const ScriptsName: string := "scripts"

  /**
   * `mkdir(parents=True, exist_ok=True)` of one directory. `fails` names the paths on which the
   * operating system raises `OSError`; the failing path stands for the error's text.
   */
  function MkdirStep(t: Tree, p: string, fails: string -> bool): (Option<string>, Tree) {
    if fails(p) then (Some(p), t) else (None, t.(dirs := t.dirs + {p}))
  }

  /** The directories made one after the other, up to the first that fails. */
  function MkdirAll(t: Tree, ps: seq<string>, fails: string -> bool): (Option<string>, Tree)
    decreases |ps|
  {
    if ps == [] then (None, t)
    else
      var (bad, t1) := MkdirStep(t, ps[0], fails);
      if bad.Some? then (bad, t1) else MkdirAll(t1, ps[1..], fails)
  }

  /** `write_text` of one file. */
  function WriteStep(t: Tree, p: string, content: string, fails: string -> bool): (Option<string>, Tree) {
    if fails(p) then (Some(p), t) else (None, t.(files := t.files[p := content]))
  }

  /** Each file written in order, a file in a directory named scripts made executable, up to the first failure. */
  function WriteAll(t: Tree, entries: seq<(string, string)>, fails: string -> bool): (Option<string>, Tree)
    decreases |entries|
  {
    if entries == [] then (None, t)
    else if fails(entries[0].0) then (Some(entries[0].0), t)
    else WriteAll(WriteOne(t, entries[0].0, entries[0].1), entries[1..], fails)
  }

  /** Writing one file, and making it executable when its directory is named scripts. */
  function WriteOne(t: Tree, p: string, content: string): Tree {
    var t1 := t.(files := t.files[p := content]);
    if ParentName(p) == ScriptsName then t1.(modes := t1.modes[p := ScriptMode]) else t1
  }

  /** The modes the writes set: executable for each file whose directory is named scripts. */
  function ScriptModes(entries: seq<(string, string)>): (m: map<string, int>)
    ensures forall p | p in m :: m[p] == ScriptMode
  {
    if entries == [] then map[]
    else (if ParentName(entries[0].0) == ScriptsName then map[entries[0].0 := ScriptMode] else map[]) + ScriptModes(entries[1..])
  }

  lemma {:induction false} ScriptModesCover(entries: seq<(string, string)>, p: string)
    requires p in Keys(entries) && ParentName(p) == ScriptsName
    ensures p in ScriptModes(entries)
  {
    if entries[0].0 != p {
      ScriptModesCover(entries[1..], p);
    }
  }

  /** Making directories touches no file, and fails exactly at the first directory the system refuses. */
  lemma {:induction false} MkdirAllOutcome(t: Tree, ps: seq<string>, fails: string -> bool)
    ensures var (bad, t') := MkdirAll(t, ps, fails);
      && t'.files == t.files && t'.modes == t.modes
      && (bad == None <==> forall p | p in ps :: !fails(p))
      && (bad.Some? ==> bad.value in ps && fails(bad.value))
      && (bad == None ==> t'.dirs == t.dirs + set p | p in ps)
    decreases |ps|
  {
    if ps != [] {
      var (bad, t1) := MkdirStep(t, ps[0], fails);
      if bad == None {
        MkdirAllOutcome(t1, ps[1..], fails);
        assert forall p | p in ps :: p == ps[0] || p in ps[1..];
        assert (set p | p in ps) == {ps[0]} + set p | p in ps[1..];
      }
    }
  }

  lemma WriteAllUnfold(t: Tree, entries: seq<(string, string)>, fails: string -> bool)
    requires entries != [] && !fails(entries[0].0)
    ensures WriteAll(t, entries, fails) == WriteAll(WriteOne(t, entries[0].0, entries[0].1), entries[1..], fails)
  {
  }

  /**
   * Writing leaves the directories alone and fails exactly when the system refuses one of the
   * paths, at a path it refuses.
   */
  lemma {:induction false} WriteAllFailure(t: Tree, entries: seq<(string, string)>, fails: string -> bool)
    ensures var (bad, t') := WriteAll(t, entries, fails);
      && t'.dirs == t.dirs
      && (bad == None <==> forall e | e in entries :: !fails(e.0))
      && (bad.Some? ==> bad.value in Keys(entries) && fails(bad.value))
    decreases |entries|
  {
    if entries != [] && !fails(entries[0].0) {
      WriteAllUnfold(t, entries, fails);
      WriteAllFailure(WriteOne(t, entries[0].0, entries[0].1), entries[1..], fails);
      assert forall e | e in entries :: e == entries[0] || e in entries[1..];
    }
  }

  /**
   * When nothing fails, every file holds what the dictionary maps it to, the files under a
   * directory named scripts are executable, and no other file or mode changes.
   */
  lemma {:induction false} WriteAllSuccess(t: Tree, entries: seq<(string, string)>, fails: string -> bool)
    requires forall e | e in entries :: !fails(e.0)
    ensures var t' := WriteAll(t, entries, fails).1;
      t'.files == t.files + MapOf(entries) && t'.modes == t.modes + ScriptModes(entries)
    decreases |entries|
  {
    if entries != [] {
      var t1 := WriteOne(t, entries[0].0, entries[0].1);
      assert entries[0] in entries;
      WriteAllUnfold(t, entries, fails);
      assert forall e | e in entries[1..] :: e in entries;
      WriteAllSuccess(t1, entries[1..], fails);
      MapUpdateUnion(t.files, entries[0].0, entries[0].1, MapOf(entries[1..]));
      ModesUnion(t.modes, entries);
    }
  }

  lemma ModesUnion(modes: map<string, int>, entries: seq<(string, string)>)
    requires entries != []
    ensures WriteOne(Tree({}, map[], modes), entries[0].0, entries[0].1).modes + ScriptModes(entries[1..])
         == modes + ScriptModes(entries)
  {
  }

  // ---------------------------------------------------------------- one skill

  /** How one skill came out. */
  datatype Outcome = Created | Updated | Skipped | Failed(path: string)

  /**
   * One pass of the catalog loop: make the four directories, then skip the skill when its
   * SKILL.md existed and `overwrite` is off, else write its files; an `OSError` anywhere ends
   * the skill as failed, keeping what was already done.
   */
  function SkillStep(t: Tree, root: string, s: Skill, overwrite: bool, fails: string -> bool): (Outcome, Tree) {
    var (badDir, t1) := MkdirAll(t, SkillDirs(root, s.name), fails);
    if badDir.Some? then (Failed(badDir.value), t1)
    else
      var existed := SkillFile(root, s.name) in t1.files;
      if existed && !overwrite then (Skipped, t1)
      else
        var (badFile, t2) := WriteAll(t1, FilesToWrite(root, s), fails);
        if badFile.Some? then (Failed(badFile.value), t2)
        else (if existed then Updated else Created, t2)
  }

  predicate DirsMade(root: string, s: Skill, fails: string -> bool) {
    forall d | d in SkillDirs(root, s.name) :: !fails(d)
  }

  predicate FilesWritable(root: string, s: Skill, fails: string -> bool) {
    forall e | e in FilesToWrite(root, s) :: !fails(e.0)
  }

  /**
   * A skill is skipped exactly when its directories could be made and its SKILL.md existed
   * with `overwrite` off; created exactly when SKILL.md did not exist and everything could be
   * done; updated exactly when it existed, `overwrite` is on and everything could be done;
   * and failed otherwise, at a path the system refused.
   */
  lemma SkillStepOutcome(t: Tree, root: string, s: Skill, overwrite: bool, fails: string -> bool)
    ensures var o := SkillStep(t, root, s, overwrite, fails).0;
      var existed := SkillFile(root, s.name) in t.files;
      && (o == Skipped <==> DirsMade(root, s, fails) && existed && !overwrite)
      && (o == Created <==> DirsMade(root, s, fails) && !existed && FilesWritable(root, s, fails))
      && (o == Updated <==> DirsMade(root, s, fails) && existed && overwrite && FilesWritable(root, s, fails))
      && (o.Failed? ==> fails(o.path))
  {
    MkdirAllOutcome(t, SkillDirs(root, s.name), fails);
    var t1 := MkdirAll(t, SkillDirs(root, s.name), fails).1;
    WriteAllFailure(t1, FilesToWrite(root, s), fails);
  }

  /**
   * What a skill leaves behind. Its directories exist once they could all be made. A skipped
   * skill writes no file and changes no mode. A created or updated skill has every file of
   * `files_to_write` holding its text (SKILL.md the front matter followed by the body), its
   * scripts executable, and no other file or mode changed.
   */
  lemma SkillStepEffect(t: Tree, root: string, s: Skill, overwrite: bool, fails: string -> bool)
    ensures var (o, t') := SkillStep(t, root, s, overwrite, fails);
      && (DirsMade(root, s, fails) ==> t'.dirs == t.dirs + set d | d in SkillDirs(root, s.name))
      && (o == Skipped ==> t'.files == t.files && t'.modes == t.modes)
      && (o == Created || o == Updated ==>
            && t'.files == t.files + MapOf(FilesToWrite(root, s))
            && SkillFile(root, s.name) in t'.files
            && t'.files[SkillFile(root, s.name)] == SkillHeader(s.name, s.description) + s.body
            && t'.modes == t.modes + ScriptModes(FilesToWrite(root, s)))
  {
    MkdirAllOutcome(t, SkillDirs(root, s.name), fails);
    var t1 := MkdirAll(t, SkillDirs(root, s.name), fails).1;
    WriteAllFailure(t1, FilesToWrite(root, s), fails);
    if FilesWritable(root, s, fails) {
      WriteAllSuccess(t1, FilesToWrite(root, s), fails);
    }
    SkillFileContents(root, s);
  }

  /** Every script whose name holds no '/' lands in scripts/ and is made executable with the rest. */
  lemma ScriptsExecutable(root: string, s: Skill, f: string, c: string)
    requires (f, c) in s.scripts && Lacks(f, '/')
    ensures Child(ScriptsDir(root, s.name), f) in ScriptModes(FilesToWrite(root, s))
  {
    var p := Child(ScriptsDir(root, s.name), f);
    ChildParts(ScriptsDir(root, s.name), f);
    ChildParts(SkillDir(root, s.name), ScriptsName);
    ScriptInMap(ScriptsDir(root, s.name), s.scripts, f, c);
    FilesToWriteContents(root, s);
    assert p in MapOf(FilesToWrite(root, s));
    ScriptModesCover(FilesToWrite(root, s), p);
  }

  lemma {:induction false} ScriptInMap(dir: string, scripts: seq<(string, string)>, f: string, c: string)
    requires (f, c) in scripts
    ensures Child(dir, f) in ScriptMap(dir, scripts)
  {
    if scripts[0] != (f, c) {
      ScriptInMap(dir, scripts[1..], f, c);
    }
  }

  // ---------------------------------------------------------------- the catalog

  /** An entry of `errors`: the skill and the error's text, here the path the system refused. */
  datatype SkillError = SkillError(skill: string, error: string)

  /** The dictionary `ensure_default_skills` returns. */
  datatype Report = Report(skillsRoot: string, created: seq<string>, updated: seq<string>, skipped: seq<string>,
                           errors: seq<SkillError>, ok: bool)

  /** The four lists as the loop appends to them. */
  datatype Lists = Lists(created: seq<string>, updated: seq<string>, skipped: seq<string>, errors: seq<SkillError>)

  /** The catalog loop: each skill in turn, on the tree the previous ones left. */
  function Run(t: Tree, root: string, catalog: seq<Skill>, overwrite: bool, fails: string -> bool): (r: (seq<Outcome>, Tree))
    ensures |r.0| == |catalog|
    decreases |catalog|
  {
    if catalog == [] then ([], t)
    else
      var (outs, t1) := Run(t, root, catalog[..|catalog| - 1], overwrite, fails);
      var (o, t2) := SkillStep(t1, root, catalog[|catalog| - 1], overwrite, fails);
      (outs + [o], t2)
  }

  /** Each skill's name appended to the list its outcome picks. */
  function Tally(catalog: seq<Skill>, outs: seq<Outcome>): Lists
    requires |outs| == |catalog|
    decreases |catalog|
  {
    if catalog == [] then Lists([], [], [], [])
    else
      var l := Tally(catalog[..|catalog| - 1], outs[..|outs| - 1]);
      var name := catalog[|catalog| - 1].name;
      match outs[|outs| - 1]
      case Created => l.(created := l.created + [name])
      case Updated => l.(updated := l.updated + [name])
      case Skipped => l.(skipped := l.skipped + [name])
      case Failed(path) => l.(errors := l.errors + [SkillError(name, path)])
  }

  /**
   * `ensure_default_skills`: make the root (an `OSError` there escapes), run the catalog loop,
   * and report the four lists with `ok` true exactly when no skill failed.
   */
  function EnsureStep(t: Tree, root: string, catalog: seq<Skill>, overwrite: bool, fails: string -> bool): (Result<Report, string>, Tree) {
    var (bad, t0) := MkdirStep(t, root, fails);
    if bad.Some? then (Err(bad.value), t0)
    else
      var (outs, t1) := Run(t0, root, catalog, overwrite, fails);
      var l := Tally(catalog, outs);
      (Ok(Report(root, l.created, l.updated, l.skipped, l.errors, l.errors == [])), t1)
  }

  /** The names, in catalog order, of the skills with outcome `o`. */
  function NamesWith(catalog: seq<Skill>, outs: seq<Outcome>, o: Outcome): seq<string>
    requires |outs| == |catalog|
  {
    if catalog == [] then []
    else (if outs[0] == o then [catalog[0].name] else []) + NamesWith(catalog[1..], outs[1..], o)
  }

  /** The failed skills, in catalog order, with the path each failed at. */
  function ErrorsOf(catalog: seq<Skill>, outs: seq<Outcome>): seq<SkillError>
    requires |outs| == |catalog|
  {
    if catalog == [] then []
    else (if outs[0].Failed? then [SkillError(catalog[0].name, outs[0].path)] else []) + ErrorsOf(catalog[1..], outs[1..])
  }

  lemma {:induction false} NamesWithSnoc(catalog: seq<Skill>, outs: seq<Outcome>, s: Skill, o: Outcome, k: Outcome)
    requires |outs| == |catalog|
    ensures NamesWith(catalog + [s], outs + [o], k) == NamesWith(catalog, outs, k) + (if o == k then [s.name] else [])
    decreases |catalog|
  {
    if catalog == [] {
      assert (catalog + [s])[1..] == [];
    } else {
      assert (catalog + [s])[1..] == catalog[1..] + [s];
      assert (outs + [o])[1..] == outs[1..] + [o];
      NamesWithSnoc(catalog[1..], outs[1..], s, o, k);
    }
  }

  lemma {:induction false} ErrorsOfSnoc(catalog: seq<Skill>, outs: seq<Outcome>, s: Skill, o: Outcome)
    requires |outs| == |catalog|
    ensures ErrorsOf(catalog + [s], outs + [o]) == ErrorsOf(catalog, outs) + (if o.Failed? then [SkillError(s.name, o.path)] else [])
    decreases |catalog|
  {
    if catalog == [] {
      assert (catalog + [s])[1..] == [];
    } else {
      assert (catalog + [s])[1..] == catalog[1..] + [s];
      assert (outs + [o])[1..] == outs[1..] + [o];
      ErrorsOfSnoc(catalog[1..], outs[1..], s, o);
    }
  }

  /**
   * The lists the loop builds are the catalog filtered by outcome: each list holds the names
   * of the skills with its outcome, in catalog order.
   */
  lemma {:induction false} TallyFilters(catalog: seq<Skill>, outs: seq<Outcome>)
    requires |outs| == |catalog|
    ensures Tally(catalog, outs)
         == Lists(NamesWith(catalog, outs, Created), NamesWith(catalog, outs, Updated),
                  NamesWith(catalog, outs, Skipped), ErrorsOf(catalog, outs))
    decreases |catalog|
  {
    if catalog != [] {
      var n := |catalog| - 1;
      TallyFilters(catalog[..n], outs[..n]);
      assert catalog[..n] + [catalog[n]] == catalog;
      assert outs[..n] + [outs[n]] == outs;
      NamesWithSnoc(catalog[..n], outs[..n], catalog[n], outs[n], Created);
      NamesWithSnoc(catalog[..n], outs[..n], catalog[n], outs[n], Updated);
      NamesWithSnoc(catalog[..n], outs[..n], catalog[n], outs[n], Skipped);
      ErrorsOfSnoc(catalog[..n], outs[..n], catalog[n], outs[n]);
    }
  }

  /**
   * Every skill lands in exactly one of the four lists: together they are as long as the
   * catalog, and each skill is in the list its outcome picks (`FiltersMembership`).
   */
  lemma {:induction false} FiltersPartition(catalog: seq<Skill>, outs: seq<Outcome>)
    requires |outs| == |catalog|
    ensures |NamesWith(catalog, outs, Created)| + |NamesWith(catalog, outs, Updated)|
          + |NamesWith(catalog, outs, Skipped)| + |ErrorsOf(catalog, outs)| == |catalog|
    decreases |catalog|
  {
    if catalog != [] {
      FiltersPartition(catalog[1..], outs[1..]);
    }
  }

  /** Each skill is in the list its outcome picks. */
  lemma {:induction false} FiltersMembership(catalog: seq<Skill>, outs: seq<Outcome>, i: nat)
    requires |outs| == |catalog| && i < |catalog|
    ensures outs[i] == Created ==> catalog[i].name in NamesWith(catalog, outs, Created)
    ensures outs[i] == Updated ==> catalog[i].name in NamesWith(catalog, outs, Updated)
    ensures outs[i] == Skipped ==> catalog[i].name in NamesWith(catalog, outs, Skipped)
    ensures outs[i].Failed? ==> SkillError(catalog[i].name, outs[i].path) in ErrorsOf(catalog, outs)
    decreases |catalog|
  {
    if i > 0 {
      FiltersMembership(catalog[1..], outs[1..], i - 1);
    }
  }

  /** No error is recorded exactly when no skill failed. */
  lemma {:induction false} ErrorsEmptyIff(catalog: seq<Skill>, outs: seq<Outcome>)
    requires |outs| == |catalog|
    ensures ErrorsOf(catalog, outs) == [] <==> forall i | 0 <= i < |outs| :: !outs[i].Failed?
    decreases |catalog|
  {
    if catalog != [] {
      ErrorsEmptyIff(catalog[1..], outs[1..]);
      assert forall i | 1 <= i < |outs| :: outs[i] == outs[1..][i - 1];
    }
  }

  /** Each skill's outcome is its step on the tree the skills before it left. */
  lemma {:induction false} RunSteps(t: Tree, root: string, catalog: seq<Skill>, overwrite: bool, fails: string -> bool, i: nat)
    requires i < |catalog|
    ensures Run(t, root, catalog, overwrite, fails).0[i]
         == SkillStep(Run(t, root, catalog[..i], overwrite, fails).1, root, catalog[i], overwrite, fails).0
    decreases |catalog|
  {
    var n := |catalog| - 1;
    var before := Run(t, root, catalog[..n], overwrite, fails);
    var last := SkillStep(before.1, root, catalog[n], overwrite, fails).0;
    assert Run(t, root, catalog, overwrite, fails).0 == before.0 + [last];
    if i < n {
      RunSteps(t, root, catalog[..n], overwrite, fails, i);
      assert catalog[..n][..i] == catalog[..i] && catalog[..n][i] == catalog[i];
      SnocIndex(before.0, last, i);
    } else {
      assert catalog[..i] == catalog[..n];
    }
  }

  lemma SnocIndex<T>(s: seq<T>, x: T, i: nat)
    requires i < |s|
    ensures (s + [x])[i] == s[i]
  {
  }

  /**
   * What `ensure_default_skills` returns: an `OSError` on the root escapes; otherwise the report
   * names the root, each list holds the names of the skills with its outcome in catalog order,
   * the lists together are as long as the catalog, and `ok` holds exactly when no skill failed.
   */
  lemma EnsureReport(t: Tree, root: string, catalog: seq<Skill>, overwrite: bool, fails: string -> bool)
    ensures var (r, _) := EnsureStep(t, root, catalog, overwrite, fails);
      var outs := Run(MkdirStep(t, root, fails).1, root, catalog, overwrite, fails).0;
      && (r.Err? <==> fails(root))
      && (r.Err? ==> r.error == root)
      && (r.Ok? ==>
            && r.value.skillsRoot == root
            && r.value.created == NamesWith(catalog, outs, Created)
            && r.value.updated == NamesWith(catalog, outs, Updated)
            && r.value.skipped == NamesWith(catalog, outs, Skipped)
            && r.value.errors == ErrorsOf(catalog, outs)
            && |r.value.created| + |r.value.updated| + |r.value.skipped| + |r.value.errors| == |catalog|
            && (r.value.ok <==> forall i | 0 <= i < |catalog| :: !outs[i].Failed?))
  {
    var outs := Run(MkdirStep(t, root, fails).1, root, catalog, overwrite, fails).0;
    TallyFilters(catalog, outs);
    FiltersPartition(catalog, outs);
    ErrorsEmptyIff(catalog, outs);
  }

  lemma RunSnoc(t: Tree, root: string, catalog: seq<Skill>, overwrite: bool, fails: string -> bool, i: nat)
    requires i < |catalog|
    ensures var (outs, t1) := Run(t, root, catalog[..i], overwrite, fails);
      var (o, t2) := SkillStep(t1, root, catalog[i], overwrite, fails);
      Run(t, root, catalog[..i + 1], overwrite, fails) == (outs + [o], t2)
  {
    assert catalog[..i + 1][..i] == catalog[..i];
  }

  lemma TallySnoc(catalog: seq<Skill>, outs: seq<Outcome>, i: nat, o: Outcome)
    requires i < |catalog| && |outs| == i
    ensures Tally(catalog[..i + 1], outs + [o]) ==
      var l := Tally(catalog[..i], outs);
      var name := catalog[i].name;
      match o
      case Created => l.(created := l.created + [name])
      case Updated => l.(updated := l.updated + [name])
      case Skipped => l.(skipped := l.skipped + [name])
      case Failed(path) => l.(errors := l.errors + [SkillError(name, path)])
  {
    assert catalog[..i + 1][..i] == catalog[..i];
    assert (outs + [o])[..i] == outs;
  }

  // ---------------------------------------------------------------- the skills directory

  /** The skills root as `ensure_default_skills` changes it, one file-system call at a time. */
  class SkillsDir {
    var dirs: set<string>
    var files: map<string, string>
    var modes: map<string, int>

    constructor (t: Tree)
      ensures State() == t
    {
      dirs := t.dirs;
      files := t.files;
      modes := t.modes;
    }

    function State(): Tree
      reads this
    {
      Tree(dirs, files, modes)
    }

    /** `Path.mkdir(parents=True, exist_ok=True)`. */
    method Mkdir(p: string, fails: string -> bool) returns (failed: Option<string>)
      modifies this
      ensures (failed, State()) == MkdirStep(old(State()), p, fails)
    {
      if fails(p) {
        return Some(p);
      }
      dirs := dirs + {p};
      return None;
    }

    /** `Path.exists()` of a file. */
    method Exists(p: string) returns (b: bool)
      ensures b <==> p in files
    {
      return p in files;
    }

    /** `Path.write_text`. */
    method WriteText(p: string, content: string, fails: string -> bool) returns (failed: Option<string>)
      modifies this
      ensures (failed, State()) == WriteStep(old(State()), p, content, fails)
    {
      if fails(p) {
        return Some(p);
      }
      files := files[p := content];
      return None;
    }

    /** `Path.chmod`. */
    method Chmod(p: string, mode: int)
      modifies this
      ensures State() == old(State()).(modes := old(modes)[p := mode])
    {
      modes := modes[p := mode];
    }

    /** The body of the catalog loop for one skill, its `OSError` caught as a failed outcome. */
    method InstallSkill(root: string, s: Skill, overwrite: bool, fails: string -> bool) returns (o: Outcome)
      modifies this
      ensures (o, State()) == SkillStep(old(State()), root, s, overwrite, fails)
    {
      ghost var t0 := State();
      ghost var ds := SkillDirs(root, s.name);
      var failed := Mkdir(SkillDir(root, s.name), fails);
      if failed.Some? {
        return Failed(failed.value);
      }
      assert MkdirAll(t0, ds, fails) == MkdirAll(State(), ds[1..], fails);
      failed := Mkdir(ScriptsDir(root, s.name), fails);
      if failed.Some? {
        return Failed(failed.value);
      }
      assert MkdirAll(t0, ds, fails) == MkdirAll(State(), ds[2..], fails);
      failed := Mkdir(ReferencesDir(root, s.name), fails);
      if failed.Some? {
        return Failed(failed.value);
      }
      assert MkdirAll(t0, ds, fails) == MkdirAll(State(), ds[3..], fails);
      failed := Mkdir(AgentsDir(root, s.name), fails);
      if failed.Some? {
        return Failed(failed.value);
      }
      assert MkdirAll(t0, ds, fails) == (None, State());

      var existed := Exists(SkillFile(root, s.name));
      var entries := FilesToWrite(root, s);
      if existed && !overwrite {
        return Skipped;
      }
      ghost var t1 := State();
      for i := 0 to |entries|
        invariant WriteAll(t1, entries, fails) == WriteAll(State(), entries[i..], fails)
      {
        var (p, content) := entries[i];
        failed := WriteText(p, content, fails);
        if failed.Some? {
          return Failed(failed.value);
        }
        if ParentName(p) == ScriptsName {
          Chmod(p, ScriptMode);
        }
        assert entries[i..][1..] == entries[i + 1..];
      }
      return if existed then Updated else Created;
    }

    /** `ensure_default_skills(skills_root, overwrite)`. */
    method EnsureDefaultSkills(root: string, catalog: seq<Skill>, overwrite: bool, fails: string -> bool)
      returns (r: Result<Report, string>)
      modifies this
      ensures (r, State()) == EnsureStep(old(State()), root, catalog, overwrite, fails)
    {
      var failed := Mkdir(root, fails);
      if failed.Some? {
        return Err(failed.value);
      }
      ghost var t0 := State();
      var created: seq<string> := [];
      var updated: seq<string> := [];
      var skipped: seq<string> := [];
      var errors: seq<SkillError> := [];
      ghost var outs: seq<Outcome> := [];
      for i := 0 to |catalog|
        invariant (outs, State()) == Run(t0, root, catalog[..i], overwrite, fails)
        invariant Lists(created, updated, skipped, errors) == Tally(catalog[..i], outs)
      {
        var name := catalog[i].name;
        RunSnoc(t0, root, catalog, overwrite, fails, i);
        ghost var before := State();
        var o := InstallSkill(root, catalog[i], overwrite, fails);
        assert (o, State()) == SkillStep(before, root, catalog[i], overwrite, fails);
        TallySnoc(catalog, outs, i, o);
        match o {
          case Created => created := created + [name];
          case Updated => updated := updated + [name];
          case Skipped => skipped := skipped + [name];
          case Failed(path) => errors := errors + [SkillError(name, path)];
        }
        outs := outs + [o];
      }
      assert catalog[..|catalog|] == catalog;
      return Ok(Report(root, created, updated, skipped, errors, errors == []));
    }
  }
}
