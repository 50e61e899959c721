/**
 * ConfigLoader: the settings and template loader of `src/core/config_loader.py`.
 *
 * YAML documents are `Yaml` values with string keys; the environment is the
 * `env` input (`os.getenv`), and the configuration directory is a map from
 * relative path to decoded document.
 */
module ConfigLoader {
  import opened Wrappers
  import opened Text
  import opened OrderedMaps

  /** A decoded YAML value (floats and non-string keys are not modelled). */
  datatype Yaml =
    | YNull
    | YBool(b: bool)
    | YInt(i: int)
    | YStr(s: string)
    | YList(items: seq<Yaml>)
    | YDict(entries: seq<(string, Yaml)>)

  /** `os.getenv`. */
  type Env = string -> Option<string>

  /** An entry whose value is replaced by an environment variable: a `_env` key with a string value. */
  predicate EnvEntry(k: string, v: Yaml)
  {
    EndsWith(k, "_env") && v.YStr?
  }

  /** The key an entry gets in the new dict: `key.replace('_env', '')` for an env entry. */
  function NewKey(k: string, v: Yaml): string
  {
    if EnvEntry(k, v) then ReplaceAll(k, "_env", "") else k
  }

  /** A variable that is unset or empty, which `replace_env` rejects. */
  predicate Unset(env: Env, name: string)
  {
    env(name).None? || env(name).value == ""
  }

  /** `replace_env`: dicts entry by entry, lists element by element, scalars unchanged; the error names the variable. */
  function ReplaceEnv(obj: Yaml, env: Env): (r: Result<Yaml, string>)
    ensures !obj.YDict? && !obj.YList? ==> r == Ok(obj)
    decreases obj, 1, 0
  {
    match obj
    case YDict(_) => ReplaceEntries(obj, env, 0, [])
    case YList(_) => ReplaceItems(obj, env, 0, [])
    case _ => Ok(obj)
  }

  /** The loop over `obj.items()`, filling `new_obj` (`acc`) from entry `i` on. */
  function ReplaceEntries(d: Yaml, env: Env, i: nat, acc: seq<(string, Yaml)>): Result<Yaml, string>
    requires d.YDict? && i <= |d.entries|
    decreases d, 0, |d.entries| - i
  {
    if i == |d.entries| then Ok(YDict(acc))
    else
      assert d.entries[i].1 < d.entries[i];
      match EntryValue(d.entries[i].0, d.entries[i].1, env)
      case Err(e) => Err(e)
      case Ok(w) => ReplaceEntries(d, env, i + 1, Put(acc, NewKey(d.entries[i].0, d.entries[i].1), w))
  }

  /** The list comprehension, from item `i` on. */
  function ReplaceItems(l: Yaml, env: Env, i: nat, acc: seq<Yaml>): Result<Yaml, string>
    requires l.YList? && i <= |l.items|
    decreases l, 0, |l.items| - i
  {
    if i == |l.items| then Ok(YList(acc))
    else
      match ReplaceEnv(l.items[i], env)
      case Err(e) => Err(e)
      case Ok(w) => ReplaceItems(l, env, i + 1, acc + [w])
  }

  /**
   * One entry's new value: the variable's value for an env entry (an error
   * when it is unset or empty), the recursively transformed value otherwise.
   */
  function EntryValue(k: string, v: Yaml, env: Env): Result<Yaml, string>
    decreases v, 2, 0
  {
    if EnvEntry(k, v) then (if Unset(env, v.s) then Err(v.s) else Ok(YStr(env(v.s).value)))
    else ReplaceEnv(v, env)
  }

  // ---------------------------------------------------------------- properties

  /** The only error is an unset or empty variable. */
  lemma {:induction false} ErrorIsUnsetVariable(obj: Yaml, env: Env)
    ensures ReplaceEnv(obj, env).Err? ==> Unset(env, ReplaceEnv(obj, env).error)
    decreases obj, 1, 0
  {
    match obj
    case YDict(_) => EntriesErrorIsUnset(obj, env, 0, []);
    case YList(_) => ItemsErrorIsUnset(obj, env, 0, []);
    case _ =>
  }

  lemma {:induction false} EntriesErrorIsUnset(d: Yaml, env: Env, i: nat, acc: seq<(string, Yaml)>)
    requires d.YDict? && i <= |d.entries|
    ensures ReplaceEntries(d, env, i, acc).Err? ==> Unset(env, ReplaceEntries(d, env, i, acc).error)
    decreases d, 0, |d.entries| - i
  {
    if i < |d.entries| {
      var k, v := d.entries[i].0, d.entries[i].1;
      assert v < d.entries[i];
      if !EnvEntry(k, v) {
        ErrorIsUnsetVariable(v, env);
      }
      if EntryValue(k, v, env).Ok? {
        EntriesErrorIsUnset(d, env, i + 1, Put(acc, NewKey(k, v), EntryValue(k, v, env).value));
      }
    }
  }

  lemma {:induction false} ItemsErrorIsUnset(l: Yaml, env: Env, i: nat, acc: seq<Yaml>)
    requires l.YList? && i <= |l.items|
    ensures ReplaceItems(l, env, i, acc).Err? ==> Unset(env, ReplaceItems(l, env, i, acc).error)
    decreases l, 0, |l.items| - i
  {
    if i < |l.items| {
      ErrorIsUnsetVariable(l.items[i], env);
      if ReplaceEnv(l.items[i], env).Ok? {
        ItemsErrorIsUnset(l, env, i + 1, acc + [ReplaceEnv(l.items[i], env).value]);
      }
    }
  }

  /**
   * A successful pass transforms every entry from `i` on, and a key that no
   * later entry writes keeps the value it had in `acc`.
   */
  lemma {:induction false} EntriesKeep(d: Yaml, env: Env, i: nat, acc: seq<(string, Yaml)>, key: string)
    requires d.YDict? && i <= |d.entries|
    requires ReplaceEntries(d, env, i, acc).Ok?
    ensures ReplaceEntries(d, env, i, acc).value.YDict?
    ensures forall j :: i <= j < |d.entries| ==> EntryValue(d.entries[j].0, d.entries[j].1, env).Ok?
    ensures (forall j :: i <= j < |d.entries| ==> NewKey(d.entries[j].0, d.entries[j].1) != key) ==>
      Get(ReplaceEntries(d, env, i, acc).value.entries, key) == Get(acc, key)
    decreases |d.entries| - i
  {
    if i < |d.entries| {
      var k, v := d.entries[i].0, d.entries[i].1;
      var e := EntryValue(k, v, env);
      var next := Put(acc, NewKey(k, v), e.value);
      assert ReplaceEntries(d, env, i, acc) == ReplaceEntries(d, env, i + 1, next);
      EntriesKeep(d, env, i + 1, next, key);
      GetPut(acc, NewKey(k, v), e.value, key);
    }
  }

  /**
   * In a successful pass over a dict, entry `i`'s new key holds its
   * transformed value (the environment variable's value for an env entry,
   * the recursively transformed value otherwise) unless a later entry writes
   * the same key, and every env entry's variable is set and non-empty.
   */
  lemma DictEntry(entries: seq<(string, Yaml)>, env: Env, i: nat)
    requires i < |entries|
    requires ReplaceEnv(YDict(entries), env).Ok?
    requires forall j :: i < j < |entries| ==> NewKey(entries[j].0, entries[j].1) != NewKey(entries[i].0, entries[i].1)
    ensures ReplaceEnv(YDict(entries), env).value.YDict?
    ensures EnvEntry(entries[i].0, entries[i].1) ==> !Unset(env, entries[i].1.s)
    ensures && EntryValue(entries[i].0, entries[i].1, env).Ok?
            && Get(ReplaceEnv(YDict(entries), env).value.entries, NewKey(entries[i].0, entries[i].1))
               == Some(EntryValue(entries[i].0, entries[i].1, env).value)
  {
    var d := YDict(entries);
    var k, v := entries[i].0, entries[i].1;
    var key := NewKey(k, v);
    PrefixPass(d, env, i);
    var acc := PrefixAcc(d, env, i);
    EntriesKeep(d, env, 0, [], key);
    var next := Put(acc, key, EntryValue(k, v, env).value);
    assert ReplaceEntries(d, env, i, acc) == ReplaceEntries(d, env, i + 1, next);
    EntriesKeep(d, env, i + 1, next, key);
    GetPut(acc, key, EntryValue(k, v, env).value, key);
  }

  /** The accumulator after the first `i` entries of a pass in which they all succeed. */
  function PrefixAcc(d: Yaml, env: Env, i: nat): seq<(string, Yaml)>
    requires d.YDict? && i <= |d.entries|
    requires forall j :: 0 <= j < i ==> EntryValue(d.entries[j].0, d.entries[j].1, env).Ok?
  {
    if i == 0 then []
    else Put(PrefixAcc(d, env, i - 1), NewKey(d.entries[i - 1].0, d.entries[i - 1].1),
             EntryValue(d.entries[i - 1].0, d.entries[i - 1].1, env).value)
  }

  /** A successful pass reaches entry `i` with the prefix accumulator. */
  lemma {:induction false} PrefixPass(d: Yaml, env: Env, i: nat)
    requires d.YDict? && i <= |d.entries|
    requires ReplaceEntries(d, env, 0, []).Ok?
    ensures forall j :: 0 <= j < |d.entries| ==> EntryValue(d.entries[j].0, d.entries[j].1, env).Ok?
    ensures ReplaceEntries(d, env, 0, []) == ReplaceEntries(d, env, i, PrefixAcc(d, env, i))
    decreases i
  {
    EntriesKeep(d, env, 0, [], "");
    if i > 0 {
      PrefixPass(d, env, i - 1);
      var k, v := d.entries[i - 1].0, d.entries[i - 1].1;
      var acc := PrefixAcc(d, env, i - 1);
      var e := EntryValue(k, v, env);
      assert e.Ok?;
      EntryStep(d, env, i - 1, acc);
      assert PrefixAcc(d, env, i) == Put(acc, NewKey(k, v), e.value);
    }
  }

  /** One turn of the loop over an entry whose transformation succeeds. */
  lemma EntryStep(d: Yaml, env: Env, i: nat, acc: seq<(string, Yaml)>)
    requires d.YDict? && i < |d.entries|
    requires EntryValue(d.entries[i].0, d.entries[i].1, env).Ok?
    ensures ReplaceEntries(d, env, i, acc)
         == ReplaceEntries(d, env, i + 1, Put(acc, NewKey(d.entries[i].0, d.entries[i].1),
                                              EntryValue(d.entries[i].0, d.entries[i].1, env).value))
  {
  }

  /** A successful pass over a list transforms it element by element. */
  lemma {:induction false} ListElementwise(l: Yaml, env: Env, i: nat, acc: seq<Yaml>)
    requires l.YList? && i <= |l.items|
    requires ReplaceItems(l, env, i, acc).Ok?
    ensures var r := ReplaceItems(l, env, i, acc).value;
      && r.YList? && |r.items| == |acc| + |l.items| - i && r.items[..|acc|] == acc
      && forall j :: i <= j < |l.items| ==> ReplaceEnv(l.items[j], env) == Ok(r.items[|acc| + j - i])
    decreases |l.items| - i
  {
    if i < |l.items| {
      var w := ReplaceEnv(l.items[i], env).value;
      ListElementwise(l, env, i + 1, acc + [w]);
      var r := ReplaceItems(l, env, i, acc).value;
      assert r.items[..|acc| + 1] == acc + [w];
      assert r.items[..|acc|] == (acc + [w])[..|acc|];
    }
  }

  /** No `_env` entry anywhere, and every dict with distinct keys. */
  predicate Plain(obj: Yaml)
    decreases obj, 1
  {
    match obj
    case YDict(es) => DistinctKeys(es) && forall i :: 0 <= i < |es| ==> PlainEntry(obj, i)
    case YList(items) => forall i :: 0 <= i < |items| ==> Plain(items[i])
    case _ => true
  }

  predicate PlainEntry(d: Yaml, i: nat)
    requires d.YDict? && i < |d.entries|
    decreases d, 0
  {
    assert d.entries[i].1 < d.entries[i];
    !EnvEntry(d.entries[i].0, d.entries[i].1) && Plain(d.entries[i].1)
  }

  /** Settings without any `_env` entry come back unchanged. */
  lemma {:induction false} PlainUnchanged(obj: Yaml, env: Env)
    requires Plain(obj)
    ensures ReplaceEnv(obj, env) == Ok(obj)
    decreases obj, 1, 0
  {
    match obj
    case YDict(es) =>
      PlainEntriesUnchanged(obj, env, 0);
      assert es[..|es|] == es;
    case YList(items) =>
      PlainItemsUnchanged(obj, env, 0);
      assert items[..|items|] == items;
    case _ =>
  }

  lemma {:induction false} PlainEntriesUnchanged(d: Yaml, env: Env, i: nat)
    requires d.YDict? && i <= |d.entries| && Plain(d)
    ensures ReplaceEntries(d, env, i, d.entries[..i]) == Ok(YDict(d.entries))
    decreases d, 0, |d.entries| - i
  {
    if i == |d.entries| {
      assert d.entries[..i] == d.entries;
    } else {
      var k, v := d.entries[i].0, d.entries[i].1;
      assert PlainEntry(d, i);
      assert v < d.entries[i];
      PlainUnchanged(v, env);
      assert k !in Keys(d.entries[..i]) by {
        forall j | 0 <= j < i ensures Keys(d.entries[..i])[j] != k {
          assert d.entries[j].0 != d.entries[i].0;
        }
      }
      PutAbsent(d.entries[..i], k, v);
      assert d.entries[..i] + [(k, v)] == d.entries[..i + 1];
      PlainEntriesUnchanged(d, env, i + 1);
    }
  }

  lemma {:induction false} PlainItemsUnchanged(l: Yaml, env: Env, i: nat)
    requires l.YList? && i <= |l.items| && Plain(l)
    ensures ReplaceItems(l, env, i, l.items[..i]) == Ok(YList(l.items))
    decreases l, 0, |l.items| - i
  {
    if i == |l.items| {
      assert l.items[..i] == l.items;
    } else {
      PlainUnchanged(l.items[i], env);
      assert l.items[..i] + [l.items[i]] == l.items[..i + 1];
      PlainItemsUnchanged(l, env, i + 1);
    }
  }

  // ---------------------------------------------------------------- sections

  /** `SectionConfig`; the template's section dicts are taken as already typed. */
  datatype SectionConfig = SectionConfig(
    name: string,
    sectionType: string,
    wordCount: seq<(string, int)>,
    dependsOn: seq<string>,
    research: Option<Yaml>,
    codeRequired: bool)

  /** `get_section`: the first section with the name, or a ValueError. */
  function FindSection(sections: seq<SectionConfig>, name: string): (r: Result<SectionConfig, string>)
    ensures r.Ok? ==> r.value.name == name && r.value in sections
    decreases |sections|
  {
    if sections == [] then Err("Section not found: " + name)
    else if sections[0].name == name then Ok(sections[0])
    else FindSection(sections[1..], name)
  }

  /** The section found is the first one with the name; none is found iff no section has it. */
  lemma {:induction false} FindSectionSpec(sections: seq<SectionConfig>, name: string)
    ensures FindSection(sections, name).Err? <==> forall i :: 0 <= i < |sections| ==> sections[i].name != name
    ensures FindSection(sections, name).Ok? ==>
      exists i :: 0 <= i < |sections| && sections[i] == FindSection(sections, name).value
               && forall j :: 0 <= j < i ==> sections[j].name != name
    decreases |sections|
  {
    if sections != [] && sections[0].name != name {
      FindSectionSpec(sections[1..], name);
      if FindSection(sections[1..], name).Ok? {
        var i :| 0 <= i < |sections| - 1 && sections[1..][i] == FindSection(sections, name).value
                 && forall j :: 0 <= j < i ==> sections[1..][j].name != name;
        assert sections[i + 1] == sections[1..][i];
        forall j | 0 <= j < i + 1 ensures sections[j].name != name {
          if j > 0 {
            assert sections[j] == sections[1..][j - 1];
          }
        }
      } else {
        forall i | 0 <= i < |sections| ensures sections[i].name != name {
          if i > 0 {
            assert sections[i] == sections[1..][i - 1];
          }
        }
      }
    }
  }

  // ---------------------------------------------------------------- loading

  const SettingsPath: string := "settings.yaml"
  const DefaultTemplate: string := "final_year_project"

  /** `config_dir / 'templates' / f'{template_name}.yaml'`, relative to the config directory. */
  function TemplatePath(name: string): string
  {
    "templates/" + name + ".yaml"
  }

  /** The decoded files of the configuration directory: the settings, and each template's sections. */
  datatype ConfigDir = ConfigDir(settings: Option<Yaml>, templates: map<string, seq<SectionConfig>>)

  /** `settings.get('active_template', 'final_year_project')` on the injected settings. */
  function ActiveTemplate(settings: Yaml): Result<string, string>
  {
    if !settings.YDict? then Err("settings is not a mapping")
    else
      var t := Get(settings.entries, "active_template");
      if t.None? then Ok(DefaultTemplate)
      else if t.value.YStr? then Ok(t.value.s)
      else Err("active_template is not a string")
  }

  /** `ConfigLoader.__init__`: the settings with variables injected, and the active template's sections. */
  function Loaded(dir: ConfigDir, env: Env): Result<(Yaml, seq<SectionConfig>), string>
  {
    if dir.settings.None? then Err("Settings file not found: " + SettingsPath)
    else match ReplaceEnv(dir.settings.value, env)
      case Err(v) => Err("Environment variable " + v + " not found")
      case Ok(settings) =>
        match ActiveTemplate(settings)
        case Err(e) => Err(e)
        case Ok(name) =>
          if TemplatePath(name) !in dir.templates then Err("Template not found: " + TemplatePath(name))
          else Ok((settings, dir.templates[TemplatePath(name)]))
  }

  /** Loading succeeds only with a settings file, every variable set, and the active template present. */
  lemma LoadedSpec(dir: ConfigDir, env: Env)
    ensures Loaded(dir, env).Ok? ==> && dir.settings.Some?
                                     && ReplaceEnv(dir.settings.value, env) == Ok(Loaded(dir, env).value.0)
                                     && ActiveTemplate(Loaded(dir, env).value.0).Ok?
                                     && TemplatePath(ActiveTemplate(Loaded(dir, env).value.0).value) in dir.templates
                                     && Loaded(dir, env).value.1
                                        == dir.templates[TemplatePath(ActiveTemplate(Loaded(dir, env).value.0).value)]
    ensures dir.settings.Some? && ReplaceEnv(dir.settings.value, env).Err? ==> Loaded(dir, env).Err?
    ensures dir.settings.Some? && Plain(dir.settings.value) && dir.settings.value.YDict?
            && "active_template" !in Keys(dir.settings.value.entries) && TemplatePath(DefaultTemplate) in dir.templates
            ==> Loaded(dir, env) == Ok((dir.settings.value, dir.templates[TemplatePath(DefaultTemplate)]))
  {
    if dir.settings.Some? && Plain(dir.settings.value) {
      PlainUnchanged(dir.settings.value, env);
    }
  }

  /** A loaded configuration. */
  class Config {
    const settings: Yaml
    const sections: seq<SectionConfig>

    constructor(settings: Yaml, sections: seq<SectionConfig>)
      ensures this.settings == settings && this.sections == sections
    {
      this.settings := settings;
      this.sections := sections;
    }

    /** `get_section`. */
    function GetSection(name: string): Result<SectionConfig, string>
    {
      FindSection(sections, name)
    }
  }

  /** The module-level `_config` slot behind `get_config`. */
  class ConfigSlot {
    var instance: Option<Config>

    constructor()
      ensures instance == None
    {
      instance := None;
    }

    /**
     * `get_config`: the first successful call constructs the loader and keeps
     * it; every later call returns that same object. A failing construction
     * leaves the slot empty.
     */
    method GetConfig(dir: ConfigDir, env: Env) returns (r: Result<Config, string>)
      modifies this
      ensures old(instance).Some? ==> r == Ok(old(instance).value) && instance == old(instance)
      ensures old(instance).None? && Loaded(dir, env).Err? ==> r == Err(Loaded(dir, env).error) && instance == None
      ensures old(instance).None? && Loaded(dir, env).Ok? ==>
        && r.Ok? && fresh(r.value) && instance == Some(r.value)
        && r.value.settings == Loaded(dir, env).value.0 && r.value.sections == Loaded(dir, env).value.1
    {
      if instance.Some? {
        return Ok(instance.value);
      }
      match Loaded(dir, env)
      case Err(e) =>
        r := Err(e);
      case Ok(loaded) =>
        var c := new Config(loaded.0, loaded.1);
        instance := Some(c);
        r := Ok(c);
    }
  }

  /** Two calls in a row give the same object, whatever the directory says the second time. */
  method GetConfigTwice(slot: ConfigSlot, dir: ConfigDir, dir2: ConfigDir, env: Env, env2: Env)
    returns (first: Result<Config, string>, second: Result<Config, string>)
    modifies slot
    ensures first.Ok? ==> second == first
  {
    first := slot.GetConfig(dir, env);
    second := slot.GetConfig(dir2, env2);
  }
}
